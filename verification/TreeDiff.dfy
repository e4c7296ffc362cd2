/** The fragments sent to a page so that it shows the new tree, at tree level. */
module TreeDiff {
  import opened Wrappers

  datatype Attr = Attr(name: string, value: string)

  datatype Html = Tag(name: string, attrs: seq<Attr>, kids: seq<Html>) | Leaf(id: string, body: string)

  datatype Fragment = Fragment(id: string, body: Html)

  function IdIn(attrs: seq<Attr>): Option<string> {
    if attrs == [] then None else if attrs[0].name == "id" then Some(attrs[0].value) else IdIn(attrs[1..])
  }

  function Named(node: Html): Option<string> {
    match node
    case Tag(_, attrs, _) => IdIn(attrs)
    case Leaf(id, _) => Some(id)
  }

  predicate Alike(before: Html, after: Html) {
    && before.Tag? && after.Tag?
    && before.name == after.name && before.attrs == after.attrs && |before.kids| == |after.kids|
  }

  // ----- what the pass over two trees sends

  /** The fragments, and whether a change is left that no fragment covers. */
  datatype Outcome = Outcome(fragments: seq<Fragment>, stirred: bool)

  function DiffOf(before: Html, after: Html): Outcome
    decreases before, 1
  {
    if before == after then Outcome([], false)
    else
      var within := if Alike(before, after) then DiffKids(before, before.kids, after.kids) else Outcome([], true);
      if !within.stirred then within
      else if Named(after).Some? then Outcome([Fragment(Named(after).value, after)], false)
      else Outcome([], true)
  }

  /** Kid by kid, up to the first change no fragment covers. */
  function DiffKids(ghost parent: Html, before: seq<Html>, after: seq<Html>): Outcome
    requires |before| == |after| && forall i :: 0 <= i < |before| ==> before[i] < parent
    decreases parent, 0, |before|
  {
    if before == [] then Outcome([], false)
    else
      var first := DiffOf(before[0], after[0]);
      if first.stirred then Outcome(first.fragments, true)
      else
        var rest := DiffKids(parent, before[1..], after[1..]);
        Outcome(first.fragments + rest.fragments, rest.stirred)
  }

  /** The vector every level pushes to, and truncates when it takes over. */
  class Outbox {
    var fragments: seq<Fragment>

    constructor ()
      ensures fragments == []
    {
      fragments := [];
    }

    method Push(fragment: Fragment)
      modifies this
      ensures fragments == old(fragments) + [fragment]
    {
      fragments := fragments + [fragment];
    }

    method Truncate(length: nat)
      requires length <= |fragments|
      modifies this
      ensures fragments == old(fragments)[..length]
    {
      fragments := fragments[..length];
    }
  }

  method Diff(before: Html, after: Html, out: Outbox) returns (stirred: bool)
    modifies out
    ensures stirred == DiffOf(before, after).stirred
    ensures out.fragments == old(out.fragments) + DiffOf(before, after).fragments
    decreases before, 1
  {
    if before == after {
      return false;
    }
    var mark := |out.fragments|;
    if Alike(before, after) {
      var within := AnyStirred(before, before.kids, after.kids, out);
      if !within {
        return false;
      }
      out.Truncate(mark);
    }
    var id := Named(after);
    if id.Some? {
      out.Push(Fragment(id.value, after));
      return false;
    }
    return true;
  }

  /** Stops at the first kid that reports a change left over. */
  method AnyStirred(ghost parent: Html, before: seq<Html>, after: seq<Html>, out: Outbox) returns (stirred: bool)
    requires |before| == |after| && forall i :: 0 <= i < |before| ==> before[i] < parent
    modifies out
    ensures stirred == DiffKids(parent, before, after).stirred
    ensures out.fragments == old(out.fragments) + DiffKids(parent, before, after).fragments
    decreases parent, 0, |before|
  {
    if before == [] {
      return false;
    }
    stirred := Diff(before[0], after[0], out);
    if !stirred {
      stirred := AnyStirred(parent, before[1..], after[1..], out);
    }
  }

  // ----- no more is sent than changed

  /** The same tags, attributes and ids: only the bodies of leaves can differ. */
  predicate SameShape(before: Html, after: Html)
    decreases before, 1
  {
    if before.Leaf? || after.Leaf? then before.Leaf? && after.Leaf? && before.id == after.id
    else Alike(before, after) && SameShapes(before, before.kids, after.kids)
  }

  predicate SameShapes(ghost parent: Html, before: seq<Html>, after: seq<Html>)
    requires |before| == |after| && forall i :: 0 <= i < |before| ==> before[i] < parent
    decreases parent, 0
  {
    forall i :: 0 <= i < |before| ==> SameShape(before[i], after[i])
  }

  /** The leaves with another body, in document order. */
  function ChangedLeaves(before: Html, after: Html): seq<Fragment>
    requires SameShape(before, after)
    decreases before, 1
  {
    if before.Tag? then ChangedIn(before, before.kids, after.kids)
    else if before.body == after.body then []
    else [Fragment(after.id, after)]
  }

  function ChangedIn(ghost parent: Html, before: seq<Html>, after: seq<Html>): seq<Fragment>
    requires |before| == |after| && forall i :: 0 <= i < |before| ==> before[i] < parent
    requires SameShapes(parent, before, after)
    decreases parent, 0, |before|
  {
    if before == [] then [] else ChangedLeaves(before[0], after[0]) + ChangedIn(parent, before[1..], after[1..])
  }

  /** Between trees of one shape exactly the changed leaves are sent, and never what is around them. */
  lemma {:induction false} OnlyLeavesAreSent(before: Html, after: Html)
    requires SameShape(before, after)
    ensures DiffOf(before, after) == Outcome(ChangedLeaves(before, after), false)
    decreases before, 1
  {
    if before.Tag? {
      OnlyLeavesAreSentIn(before, before.kids, after.kids);
      if before == after {
        NothingChanged(before, before.kids);
      }
    }
  }

  lemma {:induction false} OnlyLeavesAreSentIn(parent: Html, before: seq<Html>, after: seq<Html>)
    requires |before| == |after| && forall i :: 0 <= i < |before| ==> before[i] < parent
    requires SameShapes(parent, before, after)
    ensures DiffKids(parent, before, after) == Outcome(ChangedIn(parent, before, after), false)
    decreases parent, 0, |before|
  {
    if before != [] {
      OnlyLeavesAreSent(before[0], after[0]);
      OnlyLeavesAreSentIn(parent, before[1..], after[1..]);
    }
  }

  lemma {:induction false} NothingChanged(parent: Html, kids: seq<Html>)
    requires forall i :: 0 <= i < |kids| ==> kids[i] < parent
    requires SameShapes(parent, kids, kids)
    ensures ChangedIn(parent, kids, kids) == []
    decreases parent, 0, |kids|
  {
    if kids != [] {
      if kids[0].Tag? {
        NothingChanged(kids[0], kids[0].kids);
      }
      NothingChanged(parent, kids[1..]);
    }
  }

  /** One kid whose change is left over leaves the change of all of them over. */
  lemma {:induction false} StirredByOne(parent: Html, before: seq<Html>, after: seq<Html>, i: nat)
    requires |before| == |after| && forall j :: 0 <= j < |before| ==> before[j] < parent
    requires i < |before| && DiffOf(before[i], after[i]).stirred
    ensures DiffKids(parent, before, after).stirred
    decreases parent, 0, |before|
  {
    if i > 0 {
      StirredByOne(parent, before[1..], after[1..], i - 1);
    }
  }

  // ----- what the page does with fragments

  function Ids(node: Html): set<string> {
    (if Named(node).Some? then {Named(node).value} else {}) + (if node.Tag? then IdsOf(node.kids) else {})
  }

  function IdsOf(kids: seq<Html>): set<string> { if kids == [] then {} else Ids(kids[0]) + IdsOf(kids[1..]) }

  /** The first node of that id, in document order, becomes the fragment. */
  function Patched(node: Html, fragment: Fragment): Html {
    if Named(node) == Some(fragment.id) then fragment.body
    else if node.Tag? then node.(kids := PatchedKids(node.kids, fragment))
    else node
  }

  function PatchedKids(kids: seq<Html>, fragment: Fragment): seq<Html> {
    if kids == [] then []
    else if fragment.id in Ids(kids[0]) then [Patched(kids[0], fragment)] + kids[1..]
    else [kids[0]] + PatchedKids(kids[1..], fragment)
  }

  function PatchedAll(node: Html, fragments: seq<Fragment>): Html
    decreases |fragments|
  {
    if fragments == [] then node else PatchedAll(Patched(node, fragments[0]), fragments[1..])
  }

  function PatchedKidsAll(kids: seq<Html>, fragments: seq<Fragment>): seq<Html>
    decreases |fragments|
  {
    if fragments == [] then kids else PatchedKidsAll(PatchedKids(kids, fragments[0]), fragments[1..])
  }

  /** Each fragment finds its node when its turn comes. */
  predicate Lands(node: Html, fragments: seq<Fragment>)
    decreases |fragments|
  {
    fragments == [] || (fragments[0].id in Ids(node) && Lands(Patched(node, fragments[0]), fragments[1..]))
  }

  predicate LandsIn(kids: seq<Html>, fragments: seq<Fragment>)
    decreases |fragments|
  {
    fragments == [] || (fragments[0].id in IdsOf(kids) && LandsIn(PatchedKids(kids, fragments[0]), fragments[1..]))
  }

  // ----- exactness

  /** No id occurs twice in the tree. */
  predicate Unique(node: Html) {
    node.Tag? ==> UniqueKids(node.kids) && (Named(node).Some? ==> Named(node).value !in IdsOf(node.kids))
  }

  predicate UniqueKids(kids: seq<Html>) {
    kids == [] || (Unique(kids[0]) && UniqueKids(kids[1..]) && Ids(kids[0]) !! IdsOf(kids[1..]))
  }

  /** Where the pass compares two nodes, the new one has the old one's id or none. */
  ghost predicate Matching(before: Html, after: Html)
    decreases before
  {
    && (Named(after).None? || Named(after) == Named(before))
    && (Alike(before, after) ==> forall i :: 0 <= i < |before.kids| ==> Matching(before.kids[i], after.kids[i]))
  }

  /** Every node that is sent has the id of the node it replaces. */
  ghost predicate SentMatch(before: Html, after: Html)
    decreases before, 1
  {
    if before == after then true
    else if Passes(before, after) then SentMatchKids(before, before.kids, after.kids)
    else Named(after).Some? ==> Named(before) == Named(after)
  }

  ghost predicate SentMatchKids(parent: Html, before: seq<Html>, after: seq<Html>)
    requires |before| == |after| && forall i :: 0 <= i < |before| ==> before[i] < parent
    decreases parent, 0, |before|
  {
    before == [] || (SentMatch(before[0], after[0]) && SentMatchKids(parent, before[1..], after[1..]))
  }

  /** The pass leaves this node as it is and sends for its kids only. */
  predicate Passes(before: Html, after: Html) {
    Alike(before, after) && !DiffKids(before, before.kids, after.kids).stirred
  }

  /** Ids that match wherever the pass compares match wherever it sends. */
  lemma {:induction false} MatchingIsSent(before: Html, after: Html)
    requires Matching(before, after)
    ensures SentMatch(before, after)
    decreases before, 1
  {
    if before != after && Passes(before, after) {
      MatchingKidsAreSent(before, before.kids, after.kids);
    }
  }

  lemma {:induction false} MatchingKidsAreSent(parent: Html, before: seq<Html>, after: seq<Html>)
    requires |before| == |after| && forall i :: 0 <= i < |before| ==> before[i] < parent
    requires forall i :: 0 <= i < |before| ==> Matching(before[i], after[i])
    ensures SentMatchKids(parent, before, after)
    decreases parent, 0, |before|
  {
    if before != [] {
      MatchingIsSent(before[0], after[0]);
      MatchingKidsAreSent(parent, before[1..], after[1..]);
    }
  }

  ghost predicate AllIn(fragments: seq<Fragment>, ids: set<string>) {
    forall i :: 0 <= i < |fragments| ==> fragments[i].id in ids
  }

  /** Fragments for the first kid leave the others alone. */
  lemma {:induction false} HeadPatched(head: Html, rest: seq<Html>, fragments: seq<Fragment>)
    requires Lands(head, fragments)
    ensures PatchedKidsAll([head] + rest, fragments) == [PatchedAll(head, fragments)] + rest
    ensures LandsIn([head] + rest, fragments)
    decreases |fragments|
  {
    if fragments != [] {
      assert PatchedKids([head] + rest, fragments[0]) == [Patched(head, fragments[0])] + rest;
      HeadPatched(Patched(head, fragments[0]), rest, fragments[1..]);
    }
  }

  /** Fragments whose ids the first kid does not have pass it by. */
  lemma {:induction false} TailPatched(head: Html, rest: seq<Html>, fragments: seq<Fragment>)
    requires LandsIn(rest, fragments) && forall i :: 0 <= i < |fragments| ==> fragments[i].id !in Ids(head)
    ensures PatchedKidsAll([head] + rest, fragments) == [head] + PatchedKidsAll(rest, fragments)
    ensures LandsIn([head] + rest, fragments)
    decreases |fragments|
  {
    assert ([head] + rest)[1..] == rest;
    if fragments != [] {
      assert PatchedKids([head] + rest, fragments[0]) == [head] + PatchedKids(rest, fragments[0]);
      TailPatched(head, PatchedKids(rest, fragments[0]), fragments[1..]);
    }
  }

  lemma {:induction false} PatchesChain(kids: seq<Html>, first: seq<Fragment>, rest: seq<Fragment>)
    requires LandsIn(kids, first) && LandsIn(PatchedKidsAll(kids, first), rest)
    ensures PatchedKidsAll(kids, first + rest) == PatchedKidsAll(PatchedKidsAll(kids, first), rest)
    ensures LandsIn(kids, first + rest)
    decreases |first|
  {
    if first == [] {
      assert first + rest == rest;
    } else {
      assert (first + rest)[1..] == first[1..] + rest;
      PatchesChain(PatchedKids(kids, first[0]), first[1..], rest);
    }
  }

  /** Fragments that patch the first kid, and then fragments that patch the others. */
  lemma KidsPatched(was: Html, others: seq<Html>, now: Html, rest: seq<Html>, first: seq<Fragment>, second: seq<Fragment>)
    requires Lands(was, first) && PatchedAll(was, first) == now
    requires LandsIn(others, second) && PatchedKidsAll(others, second) == rest
    requires forall i :: 0 <= i < |second| ==> second[i].id !in Ids(now)
    ensures LandsIn([was] + others, first + second) && PatchedKidsAll([was] + others, first + second) == [now] + rest
  {
    HeadPatched(was, others, first);
    TailPatched(now, others, second);
    PatchesChain([was] + others, first, second);
  }

  /** Fragments for the kids of a node whose own id is none of theirs. */
  lemma {:induction false} BodyPatched(node: Html, fragments: seq<Fragment>)
    requires node.Tag? && LandsIn(node.kids, fragments)
    requires forall i :: 0 <= i < |fragments| ==> Named(node) != Some(fragments[i].id)
    ensures PatchedAll(node, fragments) == node.(kids := PatchedKidsAll(node.kids, fragments))
    ensures Lands(node, fragments)
    decreases |fragments|
  {
    if fragments != [] {
      BodyPatched(Patched(node, fragments[0]), fragments[1..]);
    }
  }

  /** If what is sent has the ids of what it replaces, applying it in order and by id turns the
      old tree into the new one, unless the pass reports a change left over; then it sends
      nothing. */
  lemma {:induction false} PatchWorks(before: Html, after: Html)
    requires Unique(after) && SentMatch(before, after)
    ensures var d := DiffOf(before, after);
            && AllIn(d.fragments, Ids(after))
            && (if d.stirred then d.fragments == [] && Named(after).None?
                else Lands(before, d.fragments) && PatchedAll(before, d.fragments) == after)
    decreases before, 1
  {
    if before != after && Alike(before, after) {
      var within := DiffKids(before, before.kids, after.kids);
      if !within.stirred {
        PatchKidsWorks(before, before.kids, after.kids);
        BodyPatched(before, within.fragments);
      }
    }
  }

  lemma {:induction false} PatchKidsWorks(parent: Html, before: seq<Html>, after: seq<Html>)
    requires |before| == |after| && (forall i :: 0 <= i < |before| ==> before[i] < parent) && UniqueKids(after)
    requires SentMatchKids(parent, before, after)
    ensures var d := DiffKids(parent, before, after);
            !d.stirred ==>
              AllIn(d.fragments, IdsOf(after)) && LandsIn(before, d.fragments) && PatchedKidsAll(before, d.fragments) == after
    decreases parent, 0, |before|
  {
    if before != [] {
      PatchWorks(before[0], after[0]);
      var (first, rest) := (DiffOf(before[0], after[0]), DiffKids(parent, before[1..], after[1..]));
      if !first.stirred && !rest.stirred {
        PatchKidsWorks(parent, before[1..], after[1..]);
        assert before == [before[0]] + before[1..] && after == [after[0]] + after[1..];
        KidsPatched(before[0], before[1..], after[0], after[1..], first.fragments, rest.fragments);
      }
    }
  }

  // ----- and only then

  /** The fragment is a node sent under its own id. */
  ghost predicate SelfNamed(fragments: seq<Fragment>) {
    forall i :: 0 <= i < |fragments| ==> Named(fragments[i].body) == Some(fragments[i].id)
  }

  /** No patch changes the id at a place. */
  lemma {:induction false} NameStays(node: Html, fragments: seq<Fragment>)
    requires SelfNamed(fragments)
    ensures Named(PatchedAll(node, fragments)) == Named(node)
    decreases |fragments|
  {
    if fragments != [] {
      assert Named(fragments[0].body) == Some(fragments[0].id);
      NameStays(Patched(node, fragments[0]), fragments[1..]);
    }
  }

  /** Fragments that do not name the node itself leave it in place and patch its kids. */
  lemma {:induction false} RootStays(node: Html, fragments: seq<Fragment>)
    requires node.Tag? && forall i :: 0 <= i < |fragments| ==> Named(node) != Some(fragments[i].id)
    ensures PatchedAll(node, fragments) == node.(kids := PatchedKidsAll(node.kids, fragments))
    decreases |fragments|
  {
    if fragments != [] {
      RootStays(Patched(node, fragments[0]), fragments[1..]);
    }
  }

  lemma {:induction false} OneKidPatched(kids: seq<Html>, fragment: Fragment, i: nat)
    requires i < |kids|
    ensures |PatchedKids(kids, fragment)| == |kids|
    ensures PatchedKids(kids, fragment)[i] == kids[i] || PatchedKids(kids, fragment)[i] == Patched(kids[i], fragment)
  {
    if fragment.id !in Ids(kids[0]) && i > 0 {
      OneKidPatched(kids[1..], fragment, i - 1);
    } else if |kids| > 1 && fragment.id !in Ids(kids[0]) {
      OneKidPatched(kids[1..], fragment, 0);
    }
  }

  /** Each kid is patched by some of the fragments. */
  lemma {:induction false} EachKidPatched(kids: seq<Html>, fragments: seq<Fragment>, i: nat) returns (some: seq<Fragment>)
    requires i < |kids|
    ensures forall k :: 0 <= k < |some| ==> some[k] in fragments
    ensures |PatchedKidsAll(kids, fragments)| == |kids| && PatchedKidsAll(kids, fragments)[i] == PatchedAll(kids[i], some)
    decreases |fragments|
  {
    some := [];
    if fragments != [] {
      var patched := PatchedKids(kids, fragments[0]);
      OneKidPatched(kids, fragments[0], i);
      var rest := EachKidPatched(patched, fragments[1..], i);
      some := rest;
      if patched[i] != kids[i] {
        some := [fragments[0]] + rest;
        assert some[1..] == rest;
      }
    }
  }

  /** The ids of the nodes the pass leaves in place. */
  function Spine(before: Html, after: Html): set<string>
    decreases before, 1
  {
    if before == after || !Passes(before, after) then {}
    else (if Named(after).Some? then {Named(after).value} else {}) + SpineOf(before, before.kids, after.kids)
  }

  function SpineOf(ghost parent: Html, before: seq<Html>, after: seq<Html>): set<string>
    requires |before| == |after| && forall i :: 0 <= i < |before| ==> before[i] < parent
    decreases parent, 0, |before|
  {
    if before == [] then {} else Spine(before[0], after[0]) + SpineOf(parent, before[1..], after[1..])
  }

  /** No fragment names a node that is left in place. */
  ghost predicate Beside(fragments: seq<Fragment>, ids: set<string>) {
    forall k :: 0 <= k < |fragments| ==> fragments[k].id !in ids
  }

  /** Whatever fragments turn the old tree into the new one, if they leave the nodes in place
      that the pass leaves, the nodes the pass sends have the ids of those they replace. */
  lemma {:induction false} MatchNeeded(before: Html, after: Html, fragments: seq<Fragment>)
    requires SelfNamed(fragments) && Beside(fragments, Spine(before, after))
    requires PatchedAll(before, fragments) == after
    ensures SentMatch(before, after)
    decreases before, 1
  {
    NameStays(before, fragments);
    if before != after && Passes(before, after) {
      assert Named(before) == Named(after);
      RootStays(before, fragments);
      MatchNeededKids(before, before.kids, after.kids, fragments, 0);
    }
  }

  lemma {:induction false} MatchNeededKids(parent: Html, before: seq<Html>, after: seq<Html>, fragments: seq<Fragment>, from: nat)
    requires parent.Tag? && from <= |parent.kids| && before == parent.kids[from..] && |after| == |before|
    requires SelfNamed(fragments) && Beside(fragments, SpineOf(parent, before, after))
    requires |PatchedKidsAll(parent.kids, fragments)| == |parent.kids| && PatchedKidsAll(parent.kids, fragments)[from..] == after
    ensures SentMatchKids(parent, before, after)
    decreases parent, 0, |before|
  {
    if before != [] {
      var some := EachKidPatched(parent.kids, fragments, from);
      assert after[0] == PatchedKidsAll(parent.kids, fragments)[from];
      forall k | 0 <= k < |some| ensures Named(some[k].body) == Some(some[k].id) && some[k].id !in Spine(before[0], after[0]) {
        var j :| 0 <= j < |fragments| && fragments[j] == some[k];
      }
      MatchNeeded(before[0], after[0], some);
      MatchNeededKids(parent, before[1..], after[1..], fragments, from + 1);
    }
  }

  /** What the pass sends is named after itself and after ids of the new tree, never after a
      node it leaves in place. */
  lemma {:induction false} SentBeside(before: Html, after: Html)
    requires Unique(after)
    ensures var sent := DiffOf(before, after).fragments;
            SelfNamed(sent) && AllIn(sent, Ids(after)) && Beside(sent, Spine(before, after))
    ensures Spine(before, after) <= Ids(after)
    decreases before, 1
  {
    if before != after && Alike(before, after) {
      SentBesideKids(before, before.kids, after.kids);
    }
  }

  lemma {:induction false} SentBesideKids(parent: Html, before: seq<Html>, after: seq<Html>)
    requires |before| == |after| && (forall i :: 0 <= i < |before| ==> before[i] < parent) && UniqueKids(after)
    ensures var sent := DiffKids(parent, before, after).fragments;
            SelfNamed(sent) && AllIn(sent, IdsOf(after)) && Beside(sent, SpineOf(parent, before, after))
    ensures SpineOf(parent, before, after) <= IdsOf(after)
    decreases parent, 0, |before|
  {
    if before != [] {
      SentBeside(before[0], after[0]);
      SentBesideKids(parent, before[1..], after[1..]);
    }
  }

  /** Applying what the pass sends, in order and by id, gives the new tree exactly when every
      node that is sent has the id of the node it replaces. */
  lemma PatchExact(before: Html, after: Html)
    requires Unique(after) && Named(after).Some?
    ensures PatchedAll(before, DiffOf(before, after).fragments) == after <==> SentMatch(before, after)
  {
    var sent := DiffOf(before, after).fragments;
    if SentMatch(before, after) {
      PatchWorks(before, after);
    }
    if PatchedAll(before, sent) == after {
      SentBeside(before, after);
      MatchNeeded(before, after, sent);
    }
  }

  // ----- pages over time

  /** What the loop keeps: the tree last shown, and the fragments sent since the start. */
  class Sender {
    var shown: Html
    var sent: seq<Fragment>

    constructor (shown: Html)
      ensures this.shown == shown && sent == []
    {
      this.shown := shown;
      sent := [];
    }

    method Push(next: Html)
      modifies this
      ensures shown == next && sent == old(sent) + DiffOf(old(shown), next).fragments
    {
      var out := new Outbox();
      var _ := Diff(shown, next, out);
      sent := sent + out.fragments;
      shown := next;
    }

    method Join() returns (first: Fragment)
      ensures first == Joining(shown)
    {
      first := Fragment("", shown);
      var id := Named(shown);
      if id.Some? {
        first := first.(id := id.value);
      }
    }
  }

  /** What a page that joins is sent first: the whole tree last shown, in place of the node of
      its name. */
  function Joining(shown: Html): Fragment { Fragment(if Named(shown).Some? then Named(shown).value else "", shown) }

  /** The drawings can follow one another on a page. */
  ghost predicate Follows(before: Html, after: Html) {
    Unique(after) && SentMatch(before, after) && Named(after).Some?
  }

  function SentFor(shown: Html, draws: seq<Html>): seq<Fragment>
    decreases |draws|
  {
    if draws == [] then [] else DiffOf(shown, draws[0]).fragments + SentFor(draws[0], draws[1..])
  }

  lemma {:induction false} PatchedAllChain(node: Html, first: seq<Fragment>, rest: seq<Fragment>)
    ensures PatchedAll(node, first + rest) == PatchedAll(PatchedAll(node, first), rest)
    decreases |first|
  {
    if first == [] {
      assert first + rest == rest;
    } else {
      assert (first + rest)[1..] == first[1..] + rest;
      PatchedAllChain(Patched(node, first[0]), first[1..], rest);
    }
  }

  ghost predicate Chain(shown: Html, draws: seq<Html>)
    decreases |draws|
  {
    draws == [] || (Follows(shown, draws[0]) && Chain(draws[0], draws[1..]))
  }

  /** The page that applies what it is sent is right after each drawing. */
  predicate InStep(page: Html, shown: Html, draws: seq<Html>)
    decreases |draws|
  {
    draws == [] ||
    var next := PatchedAll(page, DiffOf(shown, draws[0]).fragments);
    next == draws[0] && InStep(next, draws[0], draws[1..])
  }

  /** Over any sequence of drawings with unique ids, a page that applies what it is sent is right
      all the time exactly when each drawing can follow the one before. */
  lemma {:induction false} PageKeepsUp(shown: Html, draws: seq<Html>)
    requires forall i :: 0 <= i < |draws| ==> Unique(draws[i]) && Named(draws[i]).Some?
    ensures InStep(shown, shown, draws) <==> Chain(shown, draws)
    ensures Chain(shown, draws) ==>
              PatchedAll(shown, SentFor(shown, draws)) == if draws == [] then shown else draws[|draws| - 1]
    decreases |draws|
  {
    if draws != [] {
      assert Unique(draws[0]) && Named(draws[0]).Some?;
      PatchExact(shown, draws[0]);
      PatchedAllChain(shown, DiffOf(shown, draws[0]).fragments, SentFor(draws[0], draws[1..]));
      PageKeepsUp(draws[0], draws[1..]);
    }
  }

  /** A page that joins late, whatever it shows so far under that name, is right from then on. */
  lemma JoinsInStep(page: Html, shown: Html, draws: seq<Html>)
    requires Named(page) == Named(shown) && Named(shown).Some?
    requires (forall i :: 0 <= i < |draws| ==> Unique(draws[i]) && Named(draws[i]).Some?) && Chain(shown, draws)
    ensures Patched(page, Joining(shown)) == shown && InStep(Patched(page, Joining(shown)), shown, draws)
    ensures PatchedAll(page, [Joining(shown)] + SentFor(shown, draws)) == if draws == [] then shown else draws[|draws| - 1]
  {
    PageKeepsUp(shown, draws);
    assert ([Joining(shown)] + SentFor(shown, draws))[1..] == SentFor(shown, draws);
  }

  /** A node renamed under an unchanged parent is sent under an id the page does not have, and
      the page is left behind. */
  lemma RenamedNodeIsLost() returns (before: Html, after: Html)
    ensures Unique(before) && Unique(after) && Named(before) == Named(after) == Some("page")
    ensures !SentMatch(before, after) && !DiffOf(before, after).stirred
    ensures PatchedAll(before, DiffOf(before, after).fragments) != after
  {
    var page := [Attr("id", "page")];
    var (was, now) := (Leaf("old", "text"), Leaf("new", "text"));
    before := Tag("div", page, [was]);
    after := Tag("div", page, [now]);
    assert IdIn(page) == Some("page");
    assert [was][1..] == [] && [now][1..] == [];
    assert "page"[0] != "new"[0] && "page"[0] != "old"[0] && "old"[0] != "new"[0];
    assert Ids(was) == {"old"} && Ids(now) == {"new"} && IdsOf([]) == {};
    assert IdsOf([was]) == Ids(was) && IdsOf([now]) == Ids(now) && UniqueKids([]);
    assert UniqueKids([was]) && UniqueKids([now]);
    assert DiffOf(was, now) == Outcome([Fragment("new", now)], false);
    assert DiffKids(before, [], []) == Outcome([], false);
    assert DiffKids(before, before.kids, after.kids) == Outcome([Fragment("new", now)], false);
    assert PatchedKids([was], Fragment("new", now)) == [was] + PatchedKids([], Fragment("new", now));
    assert Patched(before, Fragment("new", now)) == before;
    PatchExact(before, after);
  }
}
