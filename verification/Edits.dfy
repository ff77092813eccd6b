/** Batches of edits, all in the coordinates of the text before the batch. */
module Edits {
  import opened SqlText

  datatype Change = Change(offset: int, length: int, text: Text) {
    function End(): int { offset + length }
  }

  function Insert(c: Change, cs: seq<Change>): (r: seq<Change>)
    ensures multiset(r) == multiset(cs) + multiset{c}
  {
    if cs == [] || c.offset < cs[0].offset then [c] + cs
    else
      assert cs == [cs[0]] + cs[1..];
      [cs[0]] + Insert(c, cs[1..])
  }

  /** The batch in order of offset; equal offsets keep their order. */
  function Sorted(cs: seq<Change>): (r: seq<Change>)
    ensures multiset(r) == multiset(cs)
  {
    if cs == [] then []
    else
      assert cs == cs[..|cs| - 1] + [cs[|cs| - 1]];
      Insert(cs[|cs| - 1], Sorted(cs[..|cs| - 1]))
  }

  /** Each change lies in the text, after the previous one, and starts strictly later. */
  predicate Orderly(t: Text, cs: seq<Change>, previousStart: int, previousEnd: int) {
    cs == [] ||
    (&& 0 <= cs[0].offset && 0 <= cs[0].length && cs[0].End() <= |t|
     && previousEnd <= cs[0].offset && cs[0].offset != previousStart
     && Orderly(t, cs[1..], cs[0].offset, cs[0].End()))
  }

  /** A batch the document accepts. */
  predicate Acceptable(t: Text, changes: seq<Change>) {
    Orderly(t, Sorted(changes), -1, -1)
  }

  /** Two changes that neither start together nor overlap. */
  predicate Apart(a: Change, b: Change) {
    a.offset != b.offset && (a.End() <= b.offset || b.End() <= a.offset)
  }

  predicate InRange(t: Text, c: Change) {
    0 <= c.offset && 0 <= c.length && c.End() <= |t|
  }

  ghost predicate Ascending(cs: seq<Change>) {
    forall i, j :: 0 <= i < j < |cs| ==> cs[i].offset <= cs[j].offset
  }

  lemma {:induction false} InsertAscending(c: Change, cs: seq<Change>)
    requires Ascending(cs)
    ensures Ascending(Insert(c, cs))
  {
    if cs != [] && cs[0].offset <= c.offset {
      InsertAscending(c, cs[1..]);
      var r := Insert(c, cs[1..]);
      forall k | 0 <= k < |r| ensures cs[0].offset <= r[k].offset {
        assert r[k] in multiset(r);
        assert r[k] in multiset(cs[1..]) || r[k] == c;
      }
    }
  }

  lemma {:induction false} SortedAscending(cs: seq<Change>)
    ensures Ascending(Sorted(cs))
  {
    if cs != [] {
      SortedAscending(cs[..|cs| - 1]);
      InsertAscending(cs[|cs| - 1], Sorted(cs[..|cs| - 1]));
    }
  }

  /** No change occurs twice, and any two are apart. */
  ghost predicate KeepApart(cs: seq<Change>) {
    forall a | a in cs :: multiset(cs)[a] == 1 && forall b | b in cs && b != a :: Apart(a, b)
  }

  lemma KeepApartCons(c: Change, rest: seq<Change>)
    ensures KeepApart([c] + rest) <==> KeepApart(rest) && forall x | x in rest :: x != c && Apart(c, x)
  {
    var cs := [c] + rest;
    assert multiset(cs) == multiset{c} + multiset(rest);
    assert forall x :: x in cs <==> x == c || x in rest;
    assert forall x :: x in rest <==> x in multiset(rest);
    if KeepApart(cs) {
      assert c in cs && multiset(cs)[c] == 1;
      forall a | a in rest ensures multiset(rest)[a] == 1 && a != c { assert a in cs; }
    }
    if KeepApart(rest) && forall x | x in rest :: x != c && Apart(c, x) {
      forall a | a in cs ensures multiset(cs)[a] == 1 { if a != c { assert a in rest; } else { assert c !in rest; } }
    }
  }

  /** For an ascending list, checking neighbours is checking all pairs. */
  lemma {:induction false} OrderlyIff(t: Text, cs: seq<Change>, previousStart: int, previousEnd: int)
    requires Ascending(cs) && previousStart <= previousEnd
    ensures Orderly(t, cs, previousStart, previousEnd) <==>
              && (forall c :: c in cs ==> InRange(t, c) && previousEnd <= c.offset && c.offset != previousStart)
              && KeepApart(cs)
  {
    if cs != [] && InRange(t, cs[0]) {
      var c, rest := cs[0], cs[1..];
      assert cs == [c] + rest;
      OrderlyIff(t, rest, c.offset, c.End());
      KeepApartCons(c, rest);
      assert forall x :: x in cs <==> x == c || x in rest;
      assert forall x :: x in rest ==> c.offset <= x.offset;
      assert forall x :: x in rest && InRange(t, x) ==> (Apart(c, x) <==> c.End() <= x.offset && x.offset != c.offset);
    }
  }

  /** A batch is accepted exactly when its ranges lie in the text and keep apart, in any order. */
  lemma AcceptableIff(t: Text, changes: seq<Change>)
    ensures Acceptable(t, changes) <==> (forall c :: c in changes ==> InRange(t, c)) && KeepApart(changes)
  {
    var cs := Sorted(changes);
    SortedAscending(changes);
    OrderlyIff(t, cs, -1, -1);
    assert forall c :: c in cs <==> c in changes by {
      assert forall c :: c in cs <==> c in multiset(cs);
      assert forall c :: c in changes <==> c in multiset(changes);
    }
  }

  /** In-place replacement of one range. */
  function Splice(t: Text, c: Change): Text
    requires InRange(t, c)
  {
    t[..c.offset] + c.text + t[c.End()..]
  }

  function Delta(cs: seq<Change>): int {
    if cs == [] then 0 else |cs[0].text| - cs[0].length + Delta(cs[1..])
  }

  /** In range, ordered and disjoint, from an offset on. */
  predicate Disjoint(t: Text, cs: seq<Change>, from: int) {
    0 <= from <= |t| &&
    (cs == [] || (from <= cs[0].offset && InRange(t, cs[0]) && Disjoint(t, cs[1..], cs[0].End())))
  }

  lemma {:induction false} OrderlyDisjoint(t: Text, cs: seq<Change>, previousStart: int, previousEnd: int)
    requires Orderly(t, cs, previousStart, previousEnd) && previousEnd <= |t|
    ensures Disjoint(t, cs, if previousEnd < 0 then 0 else previousEnd)
  {
    if cs != [] { OrderlyDisjoint(t, cs[1..], cs[0].offset, cs[0].End()); }
  }

  /** The reference: all ranges replaced at once, by one pass over the old text. */
  function Replaced(t: Text, cs: seq<Change>, from: int): (r: Text)
    requires Disjoint(t, cs, from)
    ensures |r| == |t| - from + Delta(cs)
  {
    if cs == [] then t[from..]
    else t[from..cs[0].offset] + cs[0].text + Replaced(t, cs[1..], cs[0].End())
  }

  lemma Associative(a: Text, b: Text, c: Text, d: Text)
    ensures (a + b) + c + d == a + (b + c + d)
  {
  }

  /** Text before the first change is copied. */
  lemma ReplacedCopies(t: Text, cs: seq<Change>, from: int, to: int)
    requires Disjoint(t, cs, from) && from <= to && Disjoint(t, cs, to)
    ensures Replaced(t, cs, from) == t[from..to] + Replaced(t, cs, to)
  {
    if cs == [] {
      assert t[from..] == t[from..to] + t[to..];
    } else {
      assert t[from..cs[0].offset] == t[from..to] + t[to..cs[0].offset];
      Associative(t[from..to], t[to..cs[0].offset], cs[0].text, Replaced(t, cs[1..], cs[0].End()));
    }
  }

  /** One step of the right-to-left loop: splicing before changes already made. */
  lemma SpliceStep(t: Text, cs: seq<Change>)
    requires cs != [] && Disjoint(t, cs, 0) && Disjoint(t, cs[1..], 0)
    ensures InRange(Replaced(t, cs[1..], 0), cs[0])
    ensures Splice(Replaced(t, cs[1..], 0), cs[0]) == Replaced(t, cs, 0)
  {
    var c, rest := cs[0], cs[1..];
    ReplacedCopies(t, rest, 0, c.End());
    var later := Replaced(t, rest, c.End());
    var done := Replaced(t, rest, 0);
    assert done == t[..c.End()] + later;
    assert done[..c.offset] == t[..c.offset];
    assert done[c.End()..] == later;
  }

  lemma {:induction false} DisjointTail(t: Text, cs: seq<Change>, from: int, k: nat)
    requires Disjoint(t, cs, from) && k <= |cs|
    ensures Disjoint(t, cs[k..], 0)
    ensures forall j :: k <= j < |cs| ==> from <= cs[j].offset && InRange(t, cs[j])
  {
    if k > 0 { DisjointTail(t, cs[1..], cs[0].End(), k - 1); assert cs[k..] == cs[1..][k - 1..]; }
    else if cs != [] { DisjointTail(t, cs[1..], cs[0].End(), 0); }
  }

  /** Text after the last change is copied, displaced by the batch's delta. */
  lemma {:induction false} ReplacedSuffix(t: Text, cs: seq<Change>, from: int)
    requires Disjoint(t, cs, from) && cs != []
    ensures var oldEnd := cs[|cs| - 1].End();
            && from <= oldEnd <= |t| && cs[0].offset - from <= oldEnd - from + Delta(cs)
            && Replaced(t, cs, from)[oldEnd - from + Delta(cs)..] == t[oldEnd..]
  {
    var c, rest := cs[0], cs[1..];
    var head := t[from..c.offset] + c.text;
    if rest == [] {
      assert Replaced(t, cs, from) == head + t[c.End()..];
    } else {
      ReplacedSuffix(t, rest, c.End());
      var oldEnd := cs[|cs| - 1].End();
      assert rest[|rest| - 1] == cs[|cs| - 1];
      var tail := Replaced(t, rest, c.End());
      assert Replaced(t, cs, from) == head + tail;
      assert (head + tail)[oldEnd - from + Delta(cs)..] == tail[oldEnd - c.End() + Delta(rest)..];
    }
  }

  /** The changes that start at or before a position. */
  function Upto(cs: seq<Change>, p: int): seq<Change> {
    if cs == [] || p < cs[0].offset then [] else [cs[0]] + Upto(cs[1..], p)
  }

  /** Every unit outside the changed ranges survives, displaced by the changes before it. */
  lemma {:induction false} UntouchedUnit(t: Text, cs: seq<Change>, from: int, p: int)
    requires Disjoint(t, cs, from) && from <= p < |t|
    requires forall c :: c in cs ==> p < c.offset || c.End() <= p
    ensures 0 <= p - from + Delta(Upto(cs, p)) < |Replaced(t, cs, from)|
    ensures Replaced(t, cs, from)[p - from + Delta(Upto(cs, p))] == t[p]
  {
    if cs != [] && cs[0].offset <= p {
      UntouchedUnit(t, cs[1..], cs[0].End(), p);
      var head := t[from..cs[0].offset] + cs[0].text;
      assert Replaced(t, cs, from) == head + Replaced(t, cs[1..], cs[0].End());
      assert ([cs[0]] + Upto(cs[1..], p))[1..] == Upto(cs[1..], p);
    }
  }

  /** Every change's text appears whole, where its own range began. */
  lemma {:induction false} InsertedText(t: Text, cs: seq<Change>, from: int, k: nat)
    requires Disjoint(t, cs, from) && k < |cs|
    ensures var at := cs[k].offset - from + Delta(cs[..k]);
            && 0 <= at && at + |cs[k].text| <= |Replaced(t, cs, from)|
            && Replaced(t, cs, from)[at..at + |cs[k].text|] == cs[k].text
  {
    var c, rest := cs[0], cs[1..];
    var head := t[from..c.offset] + c.text;
    var tail := Replaced(t, rest, c.End());
    assert Replaced(t, cs, from) == head + tail;
    if k > 0 {
      InsertedText(t, rest, c.End(), k - 1);
      assert cs[..k][1..] == rest[..k - 1];
      var at := rest[k - 1].offset - c.End() + Delta(rest[..k - 1]);
      assert (head + tail)[|head| + at..|head| + at + |cs[k].text|] == tail[at..at + |cs[k].text|];
    }
  }
}
