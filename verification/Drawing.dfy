/** The tree of ids vodd draws: one page, its tabs, and eight places a launch, all named by
    their position, so that any drawing can follow any other. */
module Drawing {
  import opened Wrappers
  import opened TreeDiff

  /** What the places of one launch hold: drawn, or a note that they are unavailable. */
  datatype Pane = Pane(groups: string, items: string, paths: string, source: string, side: string, dockbar: string,
                       dock: string, status: string)

  /** A page that cannot be drawn at all is a note; else its launches, one of them selected. */
  datatype View = Refused(note: string) | Launches(tabs: string, panes: seq<Pane>, selected: nat)

  function Digits(n: nat): (text: string)
    ensures text != []
  {
    if n < 10 then ['0' + n as char] else Digits(n / 10) + ['0' + (n % 10) as char]
  }

  function Ident(name: string, at: nat): string { name + "-" + Digits(at) }

  function Place(name: string, at: nat, body: string): Html { Leaf(Ident(name, at), body) }

  function Hold(style: string, kid: Html): Html { Tag("div", [Attr("class", style)], [kid]) }

  function Grip(style: string, drive: string, scope: string, sign: string, orientation: string): Html {
    Tag("div", [Attr("class", "grip " + style), Attr("data-drive", drive), Attr("data-scope", scope), Attr("data-sign", sign),
                Attr("role", "separator"), Attr("aria-orientation", orientation)], [])
  }

  function Rail(pane: Pane, at: nat): Html {
    Tag("div", [Attr("class", "col rail")],
        [Hold("hold", Place("groups", at, pane.groups)), Place("items", at, pane.items),
         Hold("hold grow", Place("paths", at, pane.paths))])
  }

  function Workspace(pane: Pane, at: nat): Html {
    Tag("div", [Attr("class", "workspace")],
        [Tag("div", [Attr("class", "col")], [Hold("hold grow", Place("source", at, pane.source))]),
         Grip("wide", "--rail-right", "page", "-1", "vertical"), Place("side", at, pane.side)])
  }

  function Dock(pane: Pane, at: nat): Html {
    Tag("div", [Attr("class", "dock")], [Place("dockbar", at, pane.dockbar), Place("dock", at, pane.dock)])
  }

  function Section(pane: Pane, at: nat, current: bool): Html {
    Tag("section",
        [Attr("class", "pane"), Attr("role", "tabpanel"), Attr("data-launch", Digits(at)), Attr("data-show", "tab:" + Digits(at))]
        + if current then [] else [Attr("hidden", "")],
        [Rail(pane, at), Grip("wide tallest", "--rail-left", "page", "1", "vertical"), Workspace(pane, at),
         Grip("tall", "--dock", "pane", "-1", "horizontal"), Dock(pane, at), Place("status", at, pane.status)])
  }

  function Sections(panes: seq<Pane>, from: nat, selected: nat): (kids: seq<Html>)
    ensures |kids| == |panes|
  {
    if panes == [] then [] else [Section(panes[0], from, from == selected)] + Sections(panes[1..], from + 1, selected)
  }

  function PageOf(tabs: string, sections: seq<Html>): Html {
    Tag("main", [Attr("class", "page"), Attr("id", "page")], [Leaf("tabs", tabs)] + sections)
  }

  /** No launches, or none selected, is refused too. */
  function Draw(view: View): Html {
    match view
    case Refused(note) => Leaf("page", note)
    case Launches(tabs, panes, selected) =>
      if selected >= |panes| then Leaf("page", "nothing to show")
      else PageOf(tabs, Sections(panes, 0, selected))
  }

  // ----- ids in document order

  function IdList(node: Html): seq<string> {
    (if Named(node).Some? then [Named(node).value] else []) + (if node.Tag? then IdListOf(node.kids) else [])
  }

  function IdListOf(kids: seq<Html>): seq<string> {
    if kids == [] then [] else IdList(kids[0]) + IdListOf(kids[1..])
  }

  ghost predicate Distinct(ids: seq<string>) { forall i, j :: 0 <= i < j < |ids| ==> ids[i] != ids[j] }

  lemma DistinctParts(a: seq<string>, b: seq<string>)
    ensures Distinct(a + b) <==> Distinct(a) && Distinct(b) && forall id :: id in a ==> id !in b
  {
    var whole := a + b;
    if Distinct(whole) {
      forall i, j | 0 <= i < j < |b| ensures b[i] != b[j] {
        assert whole[|a| + i] == b[i] && whole[|a| + j] == b[j];
      }
      forall i, j | 0 <= i < |a| && 0 <= j < |b| ensures a[i] != b[j] {
        assert whole[i] == a[i] && whole[|a| + j] == b[j];
      }
      forall i, j | 0 <= i < j < |a| ensures a[i] != a[j] {
        assert whole[i] == a[i] && whole[j] == a[j];
      }
    }
    if Distinct(a) && Distinct(b) && forall id :: id in a ==> id !in b {
      forall i, j | 0 <= i < j < |whole| ensures whole[i] != whole[j] {
        if i >= |a| {
          assert b[i - |a|] != b[j - |a|];
        } else if j >= |a| {
          assert whole[i] in a && whole[j] in b;
        }
      }
    }
  }

  /** A tree has unique ids exactly when none repeats in document order. */
  lemma {:induction false} UniqueIsDistinct(node: Html)
    ensures Unique(node) <==> Distinct(IdList(node))
    ensures forall id :: id in Ids(node) <==> id in IdList(node)
  {
    if node.Tag? {
      UniqueKidsAreDistinct(node.kids);
      if Named(node).Some? {
        DistinctParts([Named(node).value], IdListOf(node.kids));
      } else {
        assert IdList(node) == IdListOf(node.kids);
      }
    }
  }

  lemma {:induction false} UniqueKidsAreDistinct(kids: seq<Html>)
    ensures UniqueKids(kids) <==> Distinct(IdListOf(kids))
    ensures forall id :: id in IdsOf(kids) <==> id in IdListOf(kids)
  {
    if kids != [] {
      UniqueIsDistinct(kids[0]);
      UniqueKidsAreDistinct(kids[1..]);
      DistinctParts(IdList(kids[0]), IdListOf(kids[1..]));
    }
  }

  // ----- the ids of a drawing

  const PLACES: seq<string> := ["groups", "items", "paths", "source", "side", "dockbar", "dock", "status"]

  /** The ids of `count` launches from `from` on. */
  function PlaceIds(from: nat, count: nat): seq<string> {
    seq(8 * count, i requires 0 <= i < 8 * count => Ident(PLACES[i % 8], from + i / 8))
  }

  lemma {:induction false} NoIdIn(attrs: seq<Attr>)
    requires forall i :: 0 <= i < |attrs| ==> attrs[i].name != "id"
    ensures IdIn(attrs) == None
  {
    if attrs != [] {
      NoIdIn(attrs[1..]);
    }
  }

  lemma TagIds(node: Html)
    requires node.Tag? && forall i :: 0 <= i < |node.attrs| ==> |node.attrs[i].name| != 2
    ensures Named(node) == None && IdList(node) == IdListOf(node.kids)
  {
    forall i | 0 <= i < |node.attrs| ensures node.attrs[i].name != "id" {
      assert |node.attrs[i].name| != |"id"|;
    }
    NoIdIn(node.attrs);
  }

  lemma OneKid(a: Html)
    ensures IdListOf([a]) == IdList(a)
  {
    assert [a][1..] == [];
    assert IdListOf([a]) == IdList(a) + IdListOf([]);
  }

  lemma TwoKids(a: Html, b: Html)
    ensures IdListOf([a, b]) == IdList(a) + IdList(b)
  {
    assert [a, b][1..] == [b];
    OneKid(b);
  }

  lemma ThreeKids(a: Html, b: Html, c: Html)
    ensures IdListOf([a, b, c]) == IdList(a) + IdList(b) + IdList(c)
  {
    assert [a, b, c][1..] == [b, c];
    TwoKids(b, c);
  }

  lemma {:induction false} MoreKids(some: seq<Html>, rest: seq<Html>)
    ensures IdListOf(some + rest) == IdListOf(some) + IdListOf(rest)
  {
    if some == [] {
      assert some + rest == rest;
    } else {
      assert (some + rest)[1..] == some[1..] + rest;
      MoreKids(some[1..], rest);
    }
  }

  lemma SixKids(a: Html, b: Html, c: Html, d: Html, e: Html, f: Html)
    ensures IdListOf([a, b, c, d, e, f]) == IdList(a) + IdList(b) + IdList(c) + (IdList(d) + IdList(e) + IdList(f))
  {
    assert [a, b, c, d, e, f] == [a, b, c] + [d, e, f];
    MoreKids([a, b, c], [d, e, f]);
    ThreeKids(a, b, c);
    ThreeKids(d, e, f);
  }

  lemma RailIds(pane: Pane, at: nat)
    ensures IdList(Rail(pane, at)) == [Ident("groups", at), Ident("items", at), Ident("paths", at)]
  {
    var (first, second) := (Place("groups", at, pane.groups), Place("paths", at, pane.paths));
    TagIds(Rail(pane, at));
    TagIds(Hold("hold", first));
    TagIds(Hold("hold grow", second));
    OneKid(first);
    OneKid(second);
    ThreeKids(Hold("hold", first), Place("items", at, pane.items), Hold("hold grow", second));
  }

  lemma WorkspaceIds(pane: Pane, at: nat)
    ensures IdList(Workspace(pane, at)) == [Ident("source", at), Ident("side", at)]
  {
    var (source, side) := (Place("source", at, pane.source), Place("side", at, pane.side));
    var held := Hold("hold grow", source);
    var col := Tag("div", [Attr("class", "col")], [held]);
    var grip := Grip("wide", "--rail-right", "page", "-1", "vertical");
    TagIds(Workspace(pane, at));
    TagIds(col);
    TagIds(held);
    GripIds("wide", "--rail-right", "page", "-1", "vertical");
    OneKid(held);
    OneKid(source);
    ThreeKids(col, grip, side);
  }

  lemma DockIds(pane: Pane, at: nat)
    ensures IdList(Dock(pane, at)) == [Ident("dockbar", at), Ident("dock", at)]
  {
    TagIds(Dock(pane, at));
    TwoKids(Place("dockbar", at, pane.dockbar), Place("dock", at, pane.dock));
  }

  lemma GripIds(style: string, drive: string, scope: string, sign: string, orientation: string)
    ensures IdList(Grip(style, drive, scope, sign, orientation)) == []
  {
    TagIds(Grip(style, drive, scope, sign, orientation));
  }

  /** The six kids of a section, by the ids they hold. */
  lemma JoinIds(rail: Html, left: Html, workspace: Html, bottom: Html, dock: Html, status: Html, at: nat)
    requires IdList(rail) == [Ident("groups", at), Ident("items", at), Ident("paths", at)] && IdList(left) == IdList(bottom) == []
    requires IdList(workspace) == [Ident("source", at), Ident("side", at)]
    requires IdList(dock) == [Ident("dockbar", at), Ident("dock", at)] && IdList(status) == [Ident("status", at)]
    ensures IdListOf([rail, left, workspace, bottom, dock, status]) == PlaceIds(at, 1)
  {
    SixKids(rail, left, workspace, bottom, dock, status);
    PlacesInOrder(at);
  }

  lemma SectionIds(pane: Pane, at: nat, current: bool)
    ensures IdList(Section(pane, at, current)) == PlaceIds(at, 1)
  {
    var left := Grip("wide tallest", "--rail-left", "page", "1", "vertical");
    var bottom := Grip("tall", "--dock", "pane", "-1", "horizontal");
    TagIds(Section(pane, at, current));
    GripIds("wide tallest", "--rail-left", "page", "1", "vertical");
    GripIds("tall", "--dock", "pane", "-1", "horizontal");
    RailIds(pane, at);
    WorkspaceIds(pane, at);
    DockIds(pane, at);
    JoinIds(Rail(pane, at), left, Workspace(pane, at), bottom, Dock(pane, at), Place("status", at, pane.status), at);
  }

  lemma PlacesInOrder(at: nat)
    ensures PlaceIds(at, 1) == [Ident("groups", at), Ident("items", at), Ident("paths", at), Ident("source", at), Ident("side", at),
                                Ident("dockbar", at), Ident("dock", at), Ident("status", at)]
  {
  }

  lemma PlacesGrow(from: nat, count: nat)
    ensures PlaceIds(from, 1 + count) == PlaceIds(from, 1) + PlaceIds(from + 1, count)
  {
  }

  lemma {:induction false} SectionsIds(panes: seq<Pane>, from: nat, selected: nat)
    ensures IdListOf(Sections(panes, from, selected)) == PlaceIds(from, |panes|)
  {
    if panes != [] {
      SectionIds(panes[0], from, from == selected);
      SectionsIds(panes[1..], from + 1, selected);
      OneKid(Section(panes[0], from, from == selected));
      MoreKids([Section(panes[0], from, from == selected)], Sections(panes[1..], from + 1, selected));
      PlacesGrow(from, |panes[1..]|);
    }
  }

  // ----- no two places share an id

  ghost predicate Plain(name: string) { forall i :: 0 <= i < |name| ==> name[i] != '-' }

  lemma {:induction false} DigitsInjective(a: nat, b: nat)
    requires Digits(a) == Digits(b)
    ensures a == b
  {
    if a >= 10 && b >= 10 {
      var (x, y) := (Digits(a / 10), Digits(b / 10));
      assert Digits(a)[..|x|] == x && Digits(b)[..|y|] == y && |x| == |y|;
      assert Digits(a)[|x|] == Digits(b)[|y|];
      DigitsInjective(a / 10, b / 10);
    } else {
      assert |Digits(a)| == |Digits(b)| && Digits(a)[0] == Digits(b)[0];
    }
  }

  lemma DashAfter(name: string, rest: string, k: nat)
    requires Plain(name) && k < |name + rest| && (name + rest)[k] == '-'
    ensures |name| <= k
  {
    assert forall i :: 0 <= i < |name| ==> (name + rest)[i] != '-';
  }

  lemma IdentInjective(m: string, a: nat, n: string, b: nat)
    requires Plain(m) && Plain(n) && Ident(m, a) == Ident(n, b)
    ensures m == n && a == b
  {
    var id := Ident(m, a);
    assert id == m + ("-" + Digits(a)) == n + ("-" + Digits(b));
    DashAfter(m, "-" + Digits(a), |n|);
    DashAfter(n, "-" + Digits(b), |m|);
    assert id[..|m|] == m && id[..|n|] == n;
    assert id[|m| + 1..] == Digits(a) && id[|n| + 1..] == Digits(b);
    DigitsInjective(a, b);
  }

  lemma IdentIsNotPlain(name: string, at: nat)
    ensures !Plain(Ident(name, at))
  {
    assert Ident(name, at)[|name|] == '-';
  }

  lemma PlacesArePlain(k: nat)
    requires k < 8
    ensures Plain(PLACES[k])
  {
    assert Plain("groups") && Plain("items") && Plain("paths") && Plain("source");
    assert Plain("side") && Plain("dockbar") && Plain("dock") && Plain("status");
  }

  lemma PlacesDiffer(j: nat, k: nat)
    requires j < k < 8
    ensures PLACES[j] != PLACES[k]
  {
    var (x, y) := (PLACES[j], PLACES[k]);
    assert |x| != |y| || x[0] != y[0] || x[1] != y[1];
  }

  lemma PlaceIdsDistinct(from: nat, count: nat)
    ensures Distinct(PlaceIds(from, count))
  {
    var ids := PlaceIds(from, count);
    forall i, j | 0 <= i < j < |ids| ensures ids[i] != ids[j] {
      PlacesDistinct(i % 8, from + i / 8, j % 8, from + j / 8);
    }
  }

  lemma PlacesDistinct(j: nat, a: nat, k: nat, b: nat)
    requires j < 8 && k < 8 && (j != k || a != b)
    ensures Ident(PLACES[j], a) != Ident(PLACES[k], b)
  {
    PlacesArePlain(j);
    PlacesArePlain(k);
    if j < k {
      PlacesDiffer(j, k);
    } else if k < j {
      PlacesDiffer(k, j);
    }
    if Ident(PLACES[j], a) == Ident(PLACES[k], b) {
      IdentInjective(PLACES[j], a, PLACES[k], b);
    }
  }

  /** The ids outside the launches are none of theirs. */
  lemma PageApart(from: nat, count: nat)
    ensures Distinct(["page", "tabs"]) && forall id :: id in ["page", "tabs"] ==> id !in PlaceIds(from, count)
  {
    var places := PlaceIds(from, count);
    assert Plain("page") && Plain("tabs") && "page"[0] != "tabs"[0];
    forall i | 0 <= i < |places| ensures !Plain(places[i]) {
      IdentIsNotPlain(PLACES[i % 8], from + i / 8);
    }
  }

  /** No drawing has an id twice, and every drawing is the page. */
  lemma DrawingIsUnique(view: View)
    ensures Unique(Draw(view)) && Named(Draw(view)) == Some("page")
  {
    var page := Draw(view);
    if page.Tag? {
      var (places, sections) := (PlaceIds(0, |view.panes|), Sections(view.panes, 0, view.selected));
      PageIds(view.tabs, sections);
      SectionsIds(view.panes, 0, view.selected);
      PlaceIdsDistinct(0, |view.panes|);
      PageApart(0, |view.panes|);
      DistinctParts(["page", "tabs"], places);
      UniqueIsDistinct(page);
    }
  }

  lemma PageIds(tabs: string, sections: seq<Html>)
    ensures Named(PageOf(tabs, sections)) == Some("page")
    ensures IdList(PageOf(tabs, sections)) == ["page", "tabs"] + IdListOf(sections)
  {
    var page := PageOf(tabs, sections);
    assert |"class"| != |"id"| && page.attrs[1..] == [Attr("id", "page")];
    OneKid(Leaf("tabs", tabs));
    MoreKids([Leaf("tabs", tabs)], sections);
    assert IdList(page) == ["page"] + IdListOf(page.kids);
    assert IdList(page) == ["page", "tabs"] + IdListOf(sections);
  }

  // ----- any drawing follows any other

  /** Unnamed nodes whose kids match, if it comes to comparing them. */
  lemma KidsMatch(was: Html, now: Html)
    requires Named(now) == None && was.Tag? && now.Tag? && |was.kids| == |now.kids|
    requires forall i :: 0 <= i < |was.kids| ==> Matching(was.kids[i], now.kids[i])
    ensures Matching(was, now)
  {
  }

  lemma SectionsMatch(was: Pane, now: Pane, at: nat, before: bool, after: bool)
    ensures Matching(Section(was, at, before), Section(now, at, after))
  {
    var (a, b) := (Section(was, at, before), Section(now, at, after));
    TagIds(b);
    forall i | 0 <= i < 6 ensures Matching(a.kids[i], b.kids[i]) {
      SectionKidMatches(was, now, at, before, after, i);
    }
    KidsMatch(a, b);
  }

  lemma SectionKidMatches(was: Pane, now: Pane, at: nat, before: bool, after: bool, i: nat)
    requires i < 6
    ensures Matching(Section(was, at, before).kids[i], Section(now, at, after).kids[i])
  {
    if i == 0 {
      RailsMatch(was, now, at);
    } else if i == 2 {
      WorkspacesMatch(was, now, at);
    } else if i == 4 {
      DocksMatch(was, now, at);
    } else if i != 5 {
      GripMatches("wide tallest", "--rail-left", "page", "1", "vertical");
      GripMatches("tall", "--dock", "pane", "-1", "horizontal");
    }
  }

  lemma GripMatches(style: string, drive: string, scope: string, sign: string, orientation: string)
    ensures Matching(Grip(style, drive, scope, sign, orientation), Grip(style, drive, scope, sign, orientation))
  {
    TagIds(Grip(style, drive, scope, sign, orientation));
  }

  lemma HoldsMatch(style: string, was: Html, now: Html)
    requires Matching(was, now)
    ensures Matching(Hold(style, was), Hold(style, now))
  {
    TagIds(Hold(style, now));
  }

  lemma RailsMatch(was: Pane, now: Pane, at: nat)
    ensures Matching(Rail(was, at), Rail(now, at))
  {
    TagIds(Rail(now, at));
    HoldsMatch("hold", Place("groups", at, was.groups), Place("groups", at, now.groups));
    HoldsMatch("hold grow", Place("paths", at, was.paths), Place("paths", at, now.paths));
  }

  lemma WorkspacesMatch(was: Pane, now: Pane, at: nat)
    ensures Matching(Workspace(was, at), Workspace(now, at))
  {
    TagIds(Workspace(now, at));
    HoldsMatch("hold grow", Place("source", at, was.source), Place("source", at, now.source));
    TagIds(Workspace(now, at).kids[0]);
    assert Matching(Workspace(was, at).kids[0], Workspace(now, at).kids[0]);
    GripMatches("wide", "--rail-right", "page", "-1", "vertical");
  }

  lemma DocksMatch(was: Pane, now: Pane, at: nat)
    ensures Matching(Dock(was, at), Dock(now, at))
  {
    TagIds(Dock(now, at));
  }

  lemma {:induction false} SectionAt(panes: seq<Pane>, from: nat, selected: nat, i: nat)
    requires i < |panes|
    ensures |Sections(panes, from, selected)| == |panes|
    ensures Sections(panes, from, selected)[i] == Section(panes[i], from + i, from + i == selected)
  {
    if |panes| > 1 {
      SectionAt(panes[1..], from + 1, selected, if i > 0 then i - 1 else 0);
    }
  }

  lemma PagesMatch(was: Html, now: Html, before: seq<Pane>, after: seq<Pane>, i: nat, j: nat)
    requires was.Tag? && now.Tag? && Named(was) == Named(now) && |was.kids| == |now.kids| == 1 + |before| && |before| == |after|
    requires was.kids[0].Leaf? && now.kids[0].Leaf? && was.kids[0].id == now.kids[0].id
    requires was.kids[1..] == Sections(before, 0, i) && now.kids[1..] == Sections(after, 0, j)
    ensures Matching(was, now)
  {
    forall k | 0 <= k < |was.kids| ensures Matching(was.kids[k], now.kids[k]) {
      if k > 0 {
        SectionAt(before, 0, i, k - 1);
        SectionAt(after, 0, j, k - 1);
        assert was.kids[k] == was.kids[1..][k - 1] && now.kids[k] == now.kids[1..][k - 1];
        SectionsMatch(before[k - 1], after[k - 1], k - 1, k - 1 == i, k - 1 == j);
      }
    }
  }

  /** Whatever changed between them, also the number of launches or that one of them is a note. */
  lemma DrawingsFollow(before: View, after: View)
    ensures Follows(Draw(before), Draw(after))
  {
    DrawingIsUnique(before);
    DrawingIsUnique(after);
    var (was, now) := (Draw(before), Draw(after));
    if Alike(was, now) {
      PagesMatch(was, now, before.panes, after.panes, before.selected, after.selected);
    }
    MatchingIsSent(was, now);
  }

  // ----- what a redrawing sends

  predicate Shown(view: View) { view.Launches? && view.selected < |view.panes| }

  /** As many launches as before, and the same one selected. */
  predicate Steady(before: View, after: View) {
    Shown(before) && Shown(after) && |before.panes| == |after.panes| && before.selected == after.selected
  }

  /** While the launches and the selected one stay, a redrawing sends only the places that
      changed, in document order; else it sends the whole page, or nothing for the same note. */
  lemma RedrawingSends(before: View, after: View)
    ensures Steady(before, after) ==> SameShape(Draw(before), Draw(after))
    ensures DiffOf(Draw(before), Draw(after)).fragments
         == if Steady(before, after) then ChangedLeaves(Draw(before), Draw(after))
            else if Draw(before) == Draw(after) then []
            else [Fragment("page", Draw(after))]
  {
    if Steady(before, after) {
      PagesSameShape(before, after);
      OnlyLeavesAreSent(Draw(before), Draw(after));
    } else if Shown(before) && Shown(after) {
      OtherSelection(before, after);
    }
  }

  lemma OtherSelection(before: View, after: View)
    requires Shown(before) && Shown(after) && !Steady(before, after)
    ensures DiffOf(Draw(before), Draw(after)) == Outcome([Fragment("page", Draw(after))], false) && Draw(before) != Draw(after)
  {
    var (was, now) := (Draw(before), Draw(after));
    assert Named(now) == Some("page");
    if |before.panes| == |after.panes| {
      var i := before.selected;
      SectionAt(before.panes, 0, before.selected, i);
      SectionAt(after.panes, 0, after.selected, i);
      SelectionStirs(before.panes[i], after.panes[i], i);
      assert was.kids[i + 1] == Section(before.panes[i], i, true) && now.kids[i + 1] == Section(after.panes[i], i, false);
      StirredByOne(was, was.kids, now.kids, i + 1);
    }
  }

  lemma SelectionStirs(was: Pane, now: Pane, at: nat)
    ensures DiffOf(Section(was, at, true), Section(now, at, false)).stirred
  {
    TagIds(Section(now, at, false));
    assert |Section(was, at, true).attrs| != |Section(now, at, false).attrs|;
  }

  lemma PagesSameShape(before: View, after: View)
    requires before.Launches? && before.selected < |before.panes| && after.Launches?
    requires |before.panes| == |after.panes| && before.selected == after.selected
    ensures SameShape(Draw(before), Draw(after))
  {
    var (was, now) := (Draw(before), Draw(after));
    forall k | 0 <= k < |was.kids| ensures SameShape(was.kids[k], now.kids[k]) {
      if k > 0 {
        SectionAt(before.panes, 0, before.selected, k - 1);
        SectionAt(after.panes, 0, before.selected, k - 1);
        SectionSameShape(before.panes[k - 1], after.panes[k - 1], k - 1, k - 1 == before.selected);
      }
    }
  }

  lemma SectionSameShape(was: Pane, now: Pane, at: nat, current: bool)
    ensures SameShape(Section(was, at, current), Section(now, at, current))
  {
    var (some, others) := (Section(was, at, current), Section(now, at, current));
    RailSameShape(was, now, at);
    WorkspaceSameShape(was, now, at);
    assert SameShape(Dock(was, at), Dock(now, at));
    forall i | 0 <= i < 6 ensures SameShape(some.kids[i], others.kids[i]) {}
  }

  lemma HoldSameShape(style: string, was: Html, now: Html)
    requires SameShape(was, now)
    ensures SameShape(Hold(style, was), Hold(style, now))
  {
  }

  lemma RailSameShape(was: Pane, now: Pane, at: nat)
    ensures SameShape(Rail(was, at), Rail(now, at))
  {
    HoldSameShape("hold", Place("groups", at, was.groups), Place("groups", at, now.groups));
    HoldSameShape("hold grow", Place("paths", at, was.paths), Place("paths", at, now.paths));
  }

  lemma WorkspaceSameShape(was: Pane, now: Pane, at: nat)
    ensures SameShape(Workspace(was, at), Workspace(now, at))
  {
    HoldSameShape("hold grow", Place("source", at, was.source), Place("source", at, now.source));
    assert SameShape(Workspace(was, at).kids[0], Workspace(now, at).kids[0]);
  }

  function Drawn(views: seq<View>): seq<Html> { seq(|views|, i requires 0 <= i < |views| => Draw(views[i])) }

  /** So a page opened on any view is right after each later drawing, and the fragments sent in
      the meantime turn its first tree into the last one. */
  lemma PageFollowsViews(first: View, views: seq<View>)
    ensures Chain(Draw(first), Drawn(views)) && InStep(Draw(first), Draw(first), Drawn(views))
    ensures PatchedAll(Draw(first), SentFor(Draw(first), Drawn(views)))
         == Draw(if views == [] then first else views[|views| - 1])
    decreases |views|
  {
    ViewsChain(first, views);
    forall i | 0 <= i < |views| ensures Unique(Drawn(views)[i]) && Named(Drawn(views)[i]).Some? {
      DrawingIsUnique(views[i]);
    }
    PageKeepsUp(Draw(first), Drawn(views));
  }

  /** And a page that was loaded on some view, and joins when another one is shown, is right from
      then on, whatever was drawn before. */
  lemma JoinedPageFollows(loaded: View, shown: View, views: seq<View>)
    ensures Patched(Draw(loaded), Joining(Draw(shown))) == Draw(shown)
    ensures InStep(Draw(shown), Draw(shown), Drawn(views))
    ensures PatchedAll(Draw(loaded), [Joining(Draw(shown))] + SentFor(Draw(shown), Drawn(views)))
         == Draw(if views == [] then shown else views[|views| - 1])
  {
    DrawingIsUnique(loaded);
    DrawingIsUnique(shown);
    ViewsChain(shown, views);
    forall i | 0 <= i < |views| ensures Unique(Drawn(views)[i]) && Named(Drawn(views)[i]).Some? {
      DrawingIsUnique(views[i]);
    }
    JoinsInStep(Draw(loaded), Draw(shown), Drawn(views));
  }

  lemma {:induction false} ViewsChain(first: View, views: seq<View>)
    ensures Chain(Draw(first), Drawn(views))
    decreases |views|
  {
    if views != [] {
      DrawingsFollow(first, views[0]);
      assert Drawn(views)[1..] == Drawn(views[1..]);
      ViewsChain(views[0], views[1..]);
    }
  }
}
