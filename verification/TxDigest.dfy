/** The transaction digest: the text that is hashed, and what it determines. */
module TxDigest {
  import opened Model

  /** What "%d" prints. */
  function Decimal(n: int): Str {
    if n < 0 then [0x2D] + DecimalNat(-n) else DecimalNat(n)
  }

  function DecimalNat(n: nat): (r: Str)
    ensures |r| > 0 && IsDigits(r)
  {
    if n < 10 then [0x30 + n] else DecimalNat(n / 10) + [0x30 + n % 10]
  }

  predicate IsDigits(s: Str) {
    forall i :: 0 <= i < |s| ==> 0x30 <= s[i] <= 0x39
  }

  /** One line of the hashed text. */
  function Line(op: TxOperation): Str {
    Decimal(op.seqNo) + [0] + op.opID + [0] + op.opType + [0] + op.key + [0] + op.bodyHash + [0x0A]
  }

  lemma SomeMember<T>(s: set<T>) returns (y: T)
    requires s != {}
    ensures y in s
  {
    y :| y in s;
  }

  lemma {:induction false} HasLeast(s: set<int>)
    requires s != {}
    ensures exists m :: m in s && forall x :: x in s ==> m <= x
    decreases s
  {
    var y := SomeMember(s);
    if s == {y} {
      assert y in s && forall x :: x in s ==> y <= x;
    } else {
      HasLeast(s - {y});
      var m :| m in s - {y} && forall x :: x in s - {y} ==> m <= x;
      var l := if y < m then y else m;
      assert l in s && forall x :: x in s ==> l <= x by {
        forall x | x in s ensures l <= x { assert x == y || x in s - {y}; }
      }
    }
  }

  function Least(s: set<int>): (m: int)
    requires s != {}
    ensures m in s && forall x :: x in s ==> m <= x
  {
    HasLeast(s);
    var m :| m in s && forall x :: x in s ==> m <= x;
    m
  }

  /** The members in increasing order. */
  function Ascending(s: set<int>): seq<int>
    decreases s
  {
    if s == {} then [] else [Least(s)] + Ascending(s - {Least(s)})
  }

  lemma {:induction false} AscendingMembers(s: set<int>)
    ensures forall x :: x in Ascending(s) <==> x in s
    ensures forall i, j :: 0 <= i < j < |Ascending(s)| ==> Ascending(s)[i] < Ascending(s)[j]
    decreases s
  {
    if s != {} {
      var m := Least(s);
      var rest := Ascending(s - {m});
      AscendingMembers(s - {m});
      assert forall i :: 0 <= i < |rest| ==> rest[i] in s - {m};
      assert Ascending(s) == [m] + rest;
    }
  }

  /** A map lookup as Go does it. */
  function OpAt(ops: map<int, TxOperation>, n: int): TxOperation {
    if n in ops then ops[n] else NO_OP
  }

  function Lines(ops: map<int, TxOperation>, seqs: seq<int>): Str {
    if seqs == [] then [] else Line(OpAt(ops, seqs[0])) + Lines(ops, seqs[1..])
  }

  function Preimage(ops: map<int, TxOperation>): Str {
    Lines(ops, Ascending(ops.Keys))
  }

  function Digest(lib: Library, t: Transaction): Str {
    lib.checksum(Preimage(t.ops))
  }

  /** sort.Ints, of distinct integers in any order. */
  method SortInts(unsorted: seq<int>, ghost members: set<int>) returns (r: seq<int>)
    requires forall x :: x in unsorted <==> x in members
    ensures r == Ascending(members)
  {
    r := [];
    var rest := set x | x in unsorted;
    assert forall x :: x in rest <==> x in members;
    SameMembers(rest, members);
    while rest != {}
      invariant Ascending(members) == r + Ascending(rest)
      decreases rest
    {
      var m := Least(rest);
      AscendingStep(rest, r);
      r := r + [m];
      rest := rest - {m};
    }
  }

  lemma SameMembers<T>(s: set<T>, t: set<T>)
    requires forall x :: x in s <==> x in t
    ensures s == t
  {
  }

  lemma AscendingStep(rest: set<int>, r: seq<int>)
    requires rest != {}
    ensures r + Ascending(rest) == (r + [Least(rest)]) + Ascending(rest - {Least(rest)})
  {
  }

  /** The digest of a transaction, its fragments visited in any order. */
  method ComputeDigest(lib: Library, t: Transaction) returns (digest: Str)
    ensures digest == Digest(lib, t)
  {
    var seqs := SeqsOf(t.ops);
    seqs := SortInts(seqs, t.ops.Keys);
    var h: Str := [];
    var i := 0;
    assert seqs[0..] == seqs;
    while i < |seqs|
      invariant i <= |seqs|
      invariant Preimage(t.ops) == h + Lines(t.ops, seqs[i..])
    {
      LinesStep(t.ops, seqs, i, h);
      h := h + Line(OpAt(t.ops, seqs[i]));
      i := i + 1;
    }
    assert seqs[i..] == [] && h + [] == h;
    assert Preimage(t.ops) == h;
    digest := lib.checksum(h);
  }

  lemma LinesStep(ops: map<int, TxOperation>, seqs: seq<int>, i: nat, h: Str)
    requires i < |seqs|
    ensures h + Lines(ops, seqs[i..]) == (h + Line(OpAt(ops, seqs[i]))) + Lines(ops, seqs[i + 1..])
  {
    assert seqs[i..][1..] == seqs[i + 1..];
  }

  /** The keys of the fragment table, in whatever order the map yields them. */
  method SeqsOf(ops: map<int, TxOperation>) returns (seqs: seq<int>)
    ensures forall x :: x in seqs <==> x in ops.Keys
  {
    seqs := [];
    var keys := ops.Keys;
    while keys != {}
      invariant keys <= ops.Keys
      invariant forall x :: x in seqs <==> x in ops.Keys && x !in keys
      decreases keys
    {
      ghost var member := SomeMember(keys);
      assert member in keys;
      var k :| k in keys;
      seqs := seqs + [k];
      keys := keys - {k};
    }
  }

  // ---- what the text determines ----

  /** The part of a fragment that enters the digest. */
  datatype Entry = Entry(seqNo: int, opID: Str, opType: Str, key: Str, bodyHash: Str)

  function EntryOf(op: TxOperation): Entry {
    Entry(op.seqNo, op.opID, op.opType, op.key, op.bodyHash)
  }

  function Entries(ops: map<int, TxOperation>, seqs: seq<int>): seq<Entry> {
    if seqs == [] then [] else [EntryOf(OpAt(ops, seqs[0]))] + Entries(ops, seqs[1..])
  }

  /** Fields that cannot be confused with the separators after them. */
  predicate Clean(op: TxOperation) {
    0 !in op.opID && 0 !in op.opType && 0 !in op.key && 0x0A !in op.bodyHash
  }

  lemma {:induction false} DecimalNatInjective(a: nat, b: nat)
    requires DecimalNat(a) == DecimalNat(b)
    ensures a == b
  {
    var x, y := DecimalNat(a), DecimalNat(b);
    if a >= 10 && b >= 10 {
      assert x[..|x| - 1] == DecimalNat(a / 10) && y[..|y| - 1] == DecimalNat(b / 10);
      DecimalNatInjective(a / 10, b / 10);
      assert x[|x| - 1] == 0x30 + a % 10 && y[|y| - 1] == 0x30 + b % 10;
    } else {
      assert (|x| == 1 <==> a < 10) && (|y| == 1 <==> b < 10);
    }
  }

  /** The first octet of a number tells its sign. */
  lemma DecimalSign(n: int)
    ensures if n < 0 then Decimal(n) == [0x2D] + DecimalNat(-n)
            else Decimal(n) == DecimalNat(n) && 0x30 <= Decimal(n)[0] <= 0x39
  {
  }

  lemma {:induction false} DecimalInjective(a: int, b: int)
    requires Decimal(a) == Decimal(b)
    ensures a == b
  {
    DecimalSign(a);
    DecimalSign(b);
    if a < 0 && b < 0 {
      SameTail(DecimalNat(-a), DecimalNat(-b));
      DecimalNatInjective(-a, -b);
    } else if a >= 0 && b >= 0 {
      DecimalNatInjective(a, b);
    }
  }

  lemma SameTail(x: Str, y: Str)
    requires [0x2D] + x == [0x2D] + y
    ensures x == y
  {
    assert ([0x2D] + x)[1..] == x && ([0x2D] + y)[1..] == y;
  }

  lemma DecimalHasNoNul(n: int)
    ensures 0 !in Decimal(n)
  {
  }

  /** A field ends at the first separator. */
  lemma {:induction false} SplitAtSeparator(a: Str, b: Str, sep: byte, x: Str, y: Str)
    requires sep !in a && sep !in b
    requires a + [sep] + x == b + [sep] + y
    ensures a == b && x == y
  {
    var l, r := a + [sep] + x, b + [sep] + y;
    assert l[0] == if a == [] then sep else a[0];
    assert r[0] == if b == [] then sep else b[0];
    if a != [] && b != [] {
      assert l[1..] == a[1..] + [sep] + x && r[1..] == b[1..] + [sep] + y;
      SplitAtSeparator(a[1..], b[1..], sep, x, y);
      assert a == [a[0]] + a[1..] && b == [b[0]] + b[1..];
    } else {
      assert l[1..] == r[1..];
    }
  }

  /** The rest of a line after the sequence number, continued by a tail. */
  function Tail1(op: TxOperation, tail: Str): Str { op.opID + [0] + Tail2(op, tail) }
  function Tail2(op: TxOperation, tail: Str): Str { op.opType + [0] + Tail3(op, tail) }
  function Tail3(op: TxOperation, tail: Str): Str { op.key + [0] + Tail4(op, tail) }
  function Tail4(op: TxOperation, tail: Str): Str { op.bodyHash + [0x0A] + tail }

  lemma LineAsTails(op: TxOperation, tail: Str)
    ensures Line(op) + tail == Decimal(op.seqNo) + [0] + Tail1(op, tail)
  {
    var a, b, c, d, e := Decimal(op.seqNo), op.opID, op.opType, op.key, op.bodyHash;
    calc {
      Line(op) + tail;
      (a + [0] + b + [0] + c + [0] + d + [0]) + (e + [0x0A] + tail);
      (a + [0] + b + [0] + c + [0]) + (d + [0] + Tail4(op, tail));
      (a + [0] + b + [0]) + (c + [0] + Tail3(op, tail));
      a + [0] + (b + [0] + Tail2(op, tail));
    }
  }

  lemma LineInjective(p: TxOperation, q: TxOperation, x: Str, y: Str)
    requires Clean(p) && Clean(q)
    requires Line(p) + x == Line(q) + y
    ensures EntryOf(p) == EntryOf(q) && x == y
  {
    LineAsTails(p, x);
    LineAsTails(q, y);
    DecimalHasNoNul(p.seqNo);
    DecimalHasNoNul(q.seqNo);
    SplitAtSeparator(Decimal(p.seqNo), Decimal(q.seqNo), 0, Tail1(p, x), Tail1(q, y));
    DecimalInjective(p.seqNo, q.seqNo);
    SplitAtSeparator(p.opID, q.opID, 0, Tail2(p, x), Tail2(q, y));
    SplitAtSeparator(p.opType, q.opType, 0, Tail3(p, x), Tail3(q, y));
    SplitAtSeparator(p.key, q.key, 0, Tail4(p, x), Tail4(q, y));
    SplitAtSeparator(p.bodyHash, q.bodyHash, 0x0A, x, y);
  }

  /** Every fragment is filed under its own number, and no field of it can be
      confused with the separator that follows. */
  predicate Filed(ops: map<int, TxOperation>) {
    forall n :: n in ops ==> ops[n].seqNo == n && Clean(ops[n])
  }

  /** The tables hold the same numbers, operation ids, types, keys and body hashes. */
  predicate SameEntries(p: map<int, TxOperation>, q: map<int, TxOperation>) {
    p.Keys == q.Keys && forall n :: n in p ==> EntryOf(p[n]) == EntryOf(q[n])
  }

  /** The hashed text determines the fragments, and is determined by them. */
  lemma PreimageInjective(p: map<int, TxOperation>, q: map<int, TxOperation>)
    requires Filed(p) && Filed(q)
    ensures Preimage(p) == Preimage(q) <==> SameEntries(p, q)
  {
    var s, t := Ascending(p.Keys), Ascending(q.Keys);
    AscendingMembers(p.Keys);
    AscendingMembers(q.Keys);
    if Preimage(p) == Preimage(q) {
      LinesInjective(p, q, s, t);
      EntriesDetermine(p, q, s, t);
      forall n ensures n in p.Keys <==> n in q.Keys {
        assert n in s <==> n in t;
      }
      SameMembers(p.Keys, q.Keys);
      forall n | n in p ensures EntryOf(p[n]) == EntryOf(q[n]) {
        assert n in s;
      }
    }
    if SameEntries(p, q) {
      SameEntriesSameLines(p, q, s);
    }
  }

  lemma {:induction false} EntriesDetermine(p: map<int, TxOperation>, q: map<int, TxOperation>, s: seq<int>,
                                            t: seq<int>)
    requires Filed(p) && Filed(q)
    requires (forall i :: 0 <= i < |s| ==> s[i] in p) && (forall i :: 0 <= i < |t| ==> t[i] in q)
    requires Entries(p, s) == Entries(q, t)
    ensures s == t
    ensures forall n :: n in s ==> EntryOf(OpAt(p, n)) == EntryOf(OpAt(q, n))
  {
    if s != [] && t != [] {
      assert Entries(p, s)[0] == EntryOf(OpAt(p, s[0])) && Entries(q, t)[0] == EntryOf(OpAt(q, t[0]));
      assert Entries(p, s)[1..] == Entries(p, s[1..]) && Entries(q, t)[1..] == Entries(q, t[1..]);
      EntriesDetermine(p, q, s[1..], t[1..]);
      assert s == [s[0]] + s[1..] && t == [t[0]] + t[1..];
    }
  }

  lemma {:induction false} LinesInjective(p: map<int, TxOperation>, q: map<int, TxOperation>, s: seq<int>, t: seq<int>)
    requires Filed(p) && Filed(q)
    requires Lines(p, s) == Lines(q, t)
    ensures Entries(p, s) == Entries(q, t)
  {
    if s == [] || t == [] {
      assert s == [] <==> Lines(p, s) == [];
      assert t == [] <==> Lines(q, t) == [];
    } else {
      LineInjective(OpAt(p, s[0]), OpAt(q, t[0]), Lines(p, s[1..]), Lines(q, t[1..]));
      LinesInjective(p, q, s[1..], t[1..]);
    }
  }

  /** The text depends on no more of a fragment than its entry. */
  lemma {:induction false} SameEntriesSameLines(p: map<int, TxOperation>, q: map<int, TxOperation>, s: seq<int>)
    requires SameEntries(p, q)
    ensures Lines(p, s) == Lines(q, s)
  {
    if s != [] {
      SameEntriesSameLines(p, q, s[1..]);
    }
  }
}
