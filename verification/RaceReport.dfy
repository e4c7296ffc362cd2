/** A list that keeps one entry per class, the one at the lowest address. */
module LowestOfClass {

  /** No class appears twice, every entry was found and is the lowest of its class, and no
      class is missing. */
  ghost predicate Summarises<F(!new), K(!new)>(kept: seq<F>, found: iset<F>, kind: F -> K, at: F -> nat) {
    && (forall i, j :: 0 <= i < j < |kept| ==> kind(kept[i]) != kind(kept[j]))
    && (forall i :: 0 <= i < |kept| ==> Lowest(kept[i], found, kind, at))
    && (forall f :: f in found ==> Reported(kept, f, kind))
  }

  ghost predicate Lowest<F(!new), K(!new)>(entry: F, found: iset<F>, kind: F -> K, at: F -> nat) {
    entry in found && forall f :: f in found && kind(f) == kind(entry) ==> at(entry) <= at(f)
  }

  ghost predicate Reported<F, K(!new)>(kept: seq<F>, f: F, kind: F -> K) {
    exists i :: 0 <= i < |kept| && kind(kept[i]) == kind(f)
  }

  lemma StillReported<F(!new), K(!new)>(kept: seq<F>, after: seq<F>, f: F, kind: F -> K)
    requires Reported(kept, f, kind)
    requires |kept| <= |after| && forall i :: 0 <= i < |kept| ==> kind(after[i]) == kind(kept[i])
    ensures Reported(after, f, kind)
  {
    var k :| 0 <= k < |kept| && kind(kept[k]) == kind(f);
    assert kind(after[k]) == kind(f);
  }

  /** A new finding lower than the entry of its class takes its place. */
  lemma Replaced<F(!new), K(!new)>(kept: seq<F>, found: iset<F>, kind: F -> K, at: F -> nat, f: F, i: nat)
    requires Summarises(kept, found, kind, at) && i < |kept| && kind(kept[i]) == kind(f)
    requires at(f) < at(kept[i])
    ensures Summarises(kept[i := f], found + iset{f}, kind, at)
  {
    var after := kept[i := f];
    assert Lowest(kept[i], found, kind, at);
    forall k | 0 <= k < |after| ensures Lowest(after[k], found + iset{f}, kind, at) {
      assert Lowest(kept[k], found, kind, at);
    }
    forall g | g in found + iset{f} ensures Reported(after, g, kind) {
      if g == f {
        assert kind(after[i]) == kind(g);
      } else {
        StillReported(kept, after, g, kind);
      }
    }
  }

  /** A new finding no lower than the entry of its class changes nothing. */
  lemma Ignored<F(!new), K(!new)>(kept: seq<F>, found: iset<F>, kind: F -> K, at: F -> nat, f: F, i: nat)
    requires Summarises(kept, found, kind, at) && i < |kept| && kind(kept[i]) == kind(f)
    requires at(f) >= at(kept[i])
    ensures Summarises(kept, found + iset{f}, kind, at)
  {
    forall k | 0 <= k < |kept| ensures Lowest(kept[k], found + iset{f}, kind, at) {
      assert Lowest(kept[k], found, kind, at);
    }
  }

  /** A finding of a new class is appended. */
  lemma Appended<F(!new), K(!new)>(kept: seq<F>, found: iset<F>, kind: F -> K, at: F -> nat, f: F)
    requires Summarises(kept, found, kind, at)
    requires forall k :: 0 <= k < |kept| ==> kind(kept[k]) != kind(f)
    ensures Summarises(kept + [f], found + iset{f}, kind, at)
  {
    var after := kept + [f];
    forall g | g in found ensures kind(g) != kind(f) {
      assert Reported(kept, g, kind);
    }
    forall k | 0 <= k < |after| ensures Lowest(after[k], found + iset{f}, kind, at) {
      assert k < |kept| ==> Lowest(kept[k], found, kind, at);
    }
    forall g | g in found + iset{f} ensures Reported(after, g, kind) {
      if g == f {
        assert kind(after[|kept|]) == kind(g);
      } else {
        StillReported(kept, after, g, kind);
      }
    }
  }
}

/** Deduplication of race findings: one diagnostic for each unordered pair of access kinds,
    at the lowest byte where that pair was found. */
module RaceReport {
  import opened Wrappers
  import opened NdRange
  import opened Addresses
  import opened Records
  import C = LowestOfClass

  datatype Finding = Finding(region: Region, address: nat, first: RaceAccess, second: RaceAccess)

  /** What identifies an access in a report; the byte it moved does not. */
  datatype Tag = Tag(entity: Entity, location: Option<Location>, store: bool, atomic: bool)

  datatype Diagnostic = Diagnostic(region: Region, address: nat, first: Tag, second: Tag)

  function TagOf(a: RaceAccess): Tag { Tag(a.entity, a.location, a.store, a.atomic) }

  /** The comparison the driver makes entry by entry. */
  predicate Alike(f: Finding, g: Finding) {
    || (TagOf(f.first) == TagOf(g.first) && TagOf(f.second) == TagOf(g.second))
    || (TagOf(f.first) == TagOf(g.second) && TagOf(f.second) == TagOf(g.first))
  }

  /** The unordered pair of access kinds a finding stands for. */
  function Class(f: Finding): multiset<Tag> { multiset{TagOf(f.first), TagOf(f.second)} }

  lemma SamePair<T>(a: T, b: T, c: T, d: T)
    requires multiset{a, b} == multiset{c, d}
    ensures (a == c && b == d) || (a == d && b == c)
  {
    assert a in multiset{c, d} && b in multiset{c, d};
    assert multiset{a, b} - multiset{a} == multiset{b};
    assert multiset{c, d} - multiset{c} == multiset{d} && multiset{c, d} - multiset{d} == multiset{c};
    assert b in multiset{b};
  }

  lemma AlikeIsSameClass(f: Finding, g: Finding)
    ensures Alike(f, g) <==> Class(f) == Class(g)
  {
    if Class(f) == Class(g) {
      SamePair(TagOf(f.first), TagOf(f.second), TagOf(g.first), TagOf(g.second));
    }
  }

  /** Field by field: the same pair of items, places in the source, kinds and atomicities, in
      either order, whatever byte was moved where. */
  lemma AlikeByFields(f: Finding, g: Finding)
    ensures Alike(f, g) <==>
              || (SameKind(f.first, g.first) && SameKind(f.second, g.second))
              || (SameKind(f.first, g.second) && SameKind(f.second, g.first))
  {
  }

  predicate SameKind(a: RaceAccess, b: RaceAccess) {
    a.entity == b.entity && a.location == b.location && a.store == b.store && a.atomic == b.atomic
  }

  function Describe(f: Finding): Diagnostic {
    Diagnostic(f.region, f.address, TagOf(f.first), TagOf(f.second))
  }

  function AddressOf(f: Finding): nat { f.address }

  /** One entry per class, at the lowest byte where the class was found. */
  ghost predicate Summarises(raced: seq<Finding>, found: iset<Finding>) {
    C.Summarises(raced, found, Class, AddressOf)
  }

  /** Findings of one class at one byte read the same. */
  ghost predicate Oriented(found: iset<Finding>) {
    forall f, g :: f in found && g in found && Class(f) == Class(g) && f.address == g.address ==>
      Describe(f) == Describe(g)
  }

  /** Two reports of the same findings, made in any order, hold the same diagnostics, each
      of them once. */
  lemma ReportIsDetermined(found: iset<Finding>, one: seq<Finding>, two: seq<Finding>)
    requires Summarises(one, found) && Summarises(two, found) && Oriented(found)
    ensures forall d :: d in Described(one) <==> d in Described(two)
    ensures forall i, j :: 0 <= i < j < |one| ==> Described(one)[i] != Described(one)[j]
  {
    forall d | d in Described(one) ensures d in Described(two) {
      DescribedAcross(found, one, two, d);
    }
    forall d | d in Described(two) ensures d in Described(one) {
      DescribedAcross(found, two, one, d);
    }
    forall i, j | 0 <= i < j < |one| ensures Described(one)[i] != Described(one)[j] {
      assert Class(one[i]) != Class(one[j]);
    }
  }

  function Described(raced: seq<Finding>): (r: seq<Diagnostic>)
    ensures |r| == |raced| && forall i :: 0 <= i < |r| ==> r[i] == Describe(raced[i])
  {
    seq(|raced|, i requires 0 <= i < |raced| => Describe(raced[i]))
  }

  lemma DescribedAcross(found: iset<Finding>, one: seq<Finding>, two: seq<Finding>, d: Diagnostic)
    requires Summarises(one, found) && Summarises(two, found) && Oriented(found)
    requires d in Described(one)
    ensures d in Described(two)
  {
    var i :| 0 <= i < |one| && Described(one)[i] == d;
    assert C.Lowest(one[i], found, Class, AddressOf) && C.Reported(two, one[i], Class);
    var j :| 0 <= j < |two| && Class(two[j]) == Class(one[i]);
    assert C.Lowest(two[j], found, Class, AddressOf);
    assert one[i].address == two[j].address;
    assert Describe(one[i]) == Describe(two[j]);
    assert Described(two)[j] == d;
  }

  /** The list of races found so far by one pass of the detector. */
  class Report {
    var raced: seq<Finding>

    constructor ()
      ensures raced == []
    {
      raced := [];
    }

    method Insert(finding: Finding)
      modifies this
      ensures raced == Inserted(old(raced), finding)
    {
      var i := 0;
      while i < |raced| && !Alike(raced[i], finding)
        invariant i <= |raced|
        invariant FirstAlike(raced, finding) == i + FirstAlike(raced[i..], finding)
      {
        assert raced[i..][1..] == raced[i + 1..];
        i := i + 1;
      }
      if i == |raced| {
        raced := raced + [finding];
      } else if finding.address < raced[i].address {
        raced := raced[i := finding];
      }
    }
  }

  /** Where the first entry alike is, or the length of the list. */
  function FirstAlike(raced: seq<Finding>, finding: Finding): (i: nat)
    ensures i <= |raced|
    ensures i < |raced| ==> Alike(raced[i], finding)
    ensures forall k :: 0 <= k < i ==> !Alike(raced[k], finding)
  {
    if raced == [] || Alike(raced[0], finding) then 0 else 1 + FirstAlike(raced[1..], finding)
  }

  function Inserted(raced: seq<Finding>, finding: Finding): seq<Finding> {
    Next(raced, finding, FirstAlike(raced, finding))
  }

  /** What one insertion makes of the list, given the first entry alike. */
  function Next(raced: seq<Finding>, finding: Finding, i: nat): seq<Finding> {
    if i >= |raced| then raced + [finding]
    else if finding.address < raced[i].address then raced[i := finding]
    else raced
  }

  /** Inserting keeps the list one entry a class, each the lowest found. */
  lemma InsertedSummarises(raced: seq<Finding>, found: iset<Finding>, finding: Finding)
    requires Summarises(raced, found)
    ensures Summarises(Inserted(raced, finding), found + iset{finding})
  {
    Noted(raced, found, finding, FirstAlike(raced, finding));
  }

  lemma Noted(raced: seq<Finding>, found: iset<Finding>, finding: Finding, i: nat)
    requires Summarises(raced, found) && i <= |raced|
    requires i < |raced| ==> Alike(raced[i], finding)
    requires forall k :: 0 <= k < i ==> !Alike(raced[k], finding)
    ensures Summarises(Next(raced, finding, i), found + iset{finding})
  {
    if i == |raced| {
      forall k | 0 <= k < |raced| ensures Class(raced[k]) != Class(finding) {
        AlikeIsSameClass(raced[k], finding);
      }
      C.Appended(raced, found, Class, AddressOf, finding);
    } else {
      AlikeIsSameClass(raced[i], finding);
      if finding.address < raced[i].address {
        C.Replaced(raced, found, Class, AddressOf, finding, i);
      } else {
        C.Ignored(raced, found, Class, AddressOf, finding, i);
      }
    }
  }
}
