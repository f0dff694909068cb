/**
 * The dashboard's state and the handlers that rewrite it. Each handler is a
 * pure function from the state before a user action to the state after it.
 */
module Dashboard {
  import opened Wrappers
  import opened Model
  import opened Slug
  import opened Categories
  import opened Decimal

  /**
   * The whole state: the category list, whether the configuration drawer is
   * open, which category (if any) is expanded in the drawer, and the text
   * typed so far into each category's "add widget" field.
   */
  datatype State = State(
    categories: seq<Category>,
    drawerOpen: bool,
    expanded: Option<string>,
    inputs: map<string, string>)

  /** The state on mount: the seed categories, drawer closed, nothing expanded, nothing typed. */
  function Init(seed: seq<Category>): (s: State)
    ensures s.categories == seed
    ensures !s.drawerOpen && s.expanded.None?
    ensures forall id :: PendingText(s.inputs, id) == ""
  {
    State(seed, false, None, map[])
  }

  /** The text shown in a category's input field: a missing entry shows as empty. */
  function PendingText(inputs: map<string, string>, id: string): (t: string)
    ensures id !in inputs ==> t == ""
    ensures id in inputs ==> t == inputs[id]
  {
    Get(inputs, id).GetOr("")
  }

  /** Opening or closing the drawer. */
  function DrawerToggle(s: State): (r: State)
    ensures r.drawerOpen != s.drawerOpen
    ensures r == s.(drawerOpen := r.drawerOpen)
  {
    s.(drawerOpen := !s.drawerOpen)
  }

  /** Clicking a category header in the drawer: collapses it if it is the expanded one, else expands it alone. */
  function CategoryToggle(s: State, id: string): (r: State)
    ensures r.expanded.None? <==> s.expanded == Some(id)
    ensures r.expanded.Some? ==> r.expanded.value == id
    ensures r == s.(expanded := r.expanded)
  {
    s.(expanded := if s.expanded == Some(id) then None else Some(id))
  }

  /** Typing into a category's field: that one entry takes the new text. */
  function InputChange(s: State, id: string, text: string): (r: State)
    ensures PendingText(r.inputs, id) == text
    ensures r.inputs.Keys == s.inputs.Keys + {id}
    ensures forall k :: k != id ==> Get(r.inputs, k) == Get(s.inputs, k)
    ensures r == s.(inputs := r.inputs)
  {
    s.(inputs := s.inputs[id := text])
  }

  /** The widget built from a typed name. */
  function NewWidget(text: string): (w: Widget)
    ensures w.name == text && w.content == ""
    ensures w.kind.None? && w.data.None? && w.options.None?
    ensures NoSpace(w.id) && IsLower(w.id)
    ensures w.id == "" <==> text == ""
    ensures w.id == Slugify(text)
  {
    SlugifyClean(text);
    Widget(Slugify(text), text, "", None, None, None)
  }

  /**
   * Adding the typed widget to a category. An absent or empty entry is
   * ignored. Otherwise every category with that id gets the new widget at
   * the end, and the entry is reset to empty, whether or not a category
   * matched.
   */
  function AddWidget(s: State, id: string): (r: State)
    ensures PendingText(s.inputs, id) == "" ==> r == s
    ensures PendingText(s.inputs, id) != "" ==>
      var w := NewWidget(PendingText(s.inputs, id));
      && |r.categories| == |s.categories|
      && (forall j :: 0 <= j < |s.categories| && s.categories[j].id == id ==>
            r.categories[j].id == id
            && r.categories[j].name == s.categories[j].name
            && r.categories[j].widgets == s.categories[j].widgets + [w])
      && (forall j :: 0 <= j < |s.categories| && s.categories[j].id != id ==>
            r.categories[j] == s.categories[j])
      && id in r.inputs && r.inputs[id] == ""
      && (forall k :: k != id ==> Get(r.inputs, k) == Get(s.inputs, k))
      && r.inputs.Keys == s.inputs.Keys
      && r.drawerOpen == s.drawerOpen && r.expanded == s.expanded
  {
    match Get(s.inputs, id)
    case Some(text) =>
      if text == "" then s
      else
        var w := NewWidget(text);
        s.(categories := UpdateMatching(s.categories, id, ws => ws + [w]),
           inputs := s.inputs[id := ""])
    case None => s
  }

  /**
   * Removing the widget at position i from every category with that id;
   * a position outside a category's list removes nothing from it.
   */
  function RemoveWidget(s: State, id: string, i: int): (r: State)
    ensures |r.categories| == |s.categories|
    ensures forall j :: 0 <= j < |s.categories| && s.categories[j].id != id ==>
              r.categories[j] == s.categories[j]
    ensures forall j :: 0 <= j < |s.categories| && s.categories[j].id == id ==>
              var before, after := s.categories[j].widgets, r.categories[j].widgets;
              && r.categories[j].id == id && r.categories[j].name == s.categories[j].name
              && (0 <= i < |before| ==> after == before[..i] + before[i + 1..])
              && (!(0 <= i < |before|) ==> after == before)
    ensures r == s.(categories := r.categories)
  {
    var r := s.(categories := UpdateMatching(s.categories, id, ws => DropIndex(ws, i)));
    forall j | 0 <= j < |s.categories| && s.categories[j].id == id && 0 <= i < |s.categories[j].widgets|
      ensures r.categories[j].widgets == s.categories[j].widgets[..i] + s.categories[j].widgets[i + 1..]
    {
      DropIndexSplit(s.categories[j].widgets, i);
    }
    r
  }

  /** Appending a fresh, empty category numbered after the current count. */
  function AddCategory(s: State): (r: State)
    ensures |r.categories| == |s.categories| + 1
    ensures r.categories[..|s.categories|] == s.categories
    ensures var c := r.categories[|s.categories|];
            && c.widgets == []
            && HasAutoPrefix(c.id) && NumberAfter(c.id, |AutoPrefix|) == Some(|r.categories|)
            && NumberAfter(c.name, |NamePrefix|) == Some(|r.categories|)
            && c.id == AutoPrefix + Show(|r.categories|)
            && c.name == NamePrefix + Show(|r.categories|)
    ensures r == s.(categories := r.categories)
  {
    var r := s.(categories := s.categories + [NewCategory(|s.categories|)]);
    assert r.categories[..|s.categories|] == s.categories;
    r
  }

  /** Closing and reopening the drawer restores the state. */
  lemma DrawerToggleInvolutive(s: State)
    ensures DrawerToggle(DrawerToggle(s)) == s
  {
  }

  /** The expanded category after clicking a sequence of headers, in order. */
  function Clicks(s: State, ids: seq<string>): State
    decreases |ids|
  {
    if ids == [] then s else Clicks(CategoryToggle(s, ids[0]), ids[1..])
  }

  /**
   * After any clicks, at most one category is expanded, and it is the one
   * clicked last; the rest of the state is untouched.
   */
  lemma {:induction false} ClicksExpandLast(s: State, ids: seq<string>)
    requires ids != []
    ensures var r := Clicks(s, ids);
            (r.expanded.None? || r.expanded == Some(ids[|ids| - 1])) && r == s.(expanded := r.expanded)
    decreases |ids|
  {
    if |ids| > 1 {
      ClicksExpandLast(CategoryToggle(s, ids[0]), ids[1..]);
    }
  }

  /** Clicking the expanded header again collapses it; clicking another switches to that one. */
  lemma CategoryToggleScenarios(s: State, a: string, b: string)
    requires a != b
    ensures CategoryToggle(CategoryToggle(s, a), a).expanded.None? <==> s.expanded != Some(a)
    ensures CategoryToggle(CategoryToggle(s, a), b).expanded == Some(b)
  {
  }

  /** Typing twice into one field keeps only the second text. */
  lemma InputLastWriteWins(s: State, id: string, first: string, second: string)
    ensures InputChange(InputChange(s, id, first), id, second) == InputChange(s, id, second)
  {
  }

  /**
   * Typing a non-empty name and then adding appends the widget built from
   * exactly that name to every category with the id, and empties the field.
   */
  lemma TypeThenAdd(s: State, id: string, text: string)
    requires text != ""
    ensures var r := AddWidget(InputChange(s, id, text), id);
            && |r.categories| == |s.categories|
            && (forall j :: 0 <= j < |s.categories| && s.categories[j].id == id ==>
                  r.categories[j].widgets == s.categories[j].widgets + [NewWidget(text)])
            && (forall j :: 0 <= j < |s.categories| && s.categories[j].id != id ==>
                  r.categories[j] == s.categories[j])
            && PendingText(r.inputs, id) == ""
  {
  }

  /** Clearing the field and then adding changes nothing further. */
  lemma ClearThenAddIsNoOp(s: State, id: string)
    ensures AddWidget(InputChange(s, id, ""), id) == InputChange(s, id, "")
  {
  }

  /** A second click on "Add Widget" adds nothing: the first one emptied the field. */
  lemma AddWidgetTwice(s: State, id: string)
    ensures AddWidget(AddWidget(s, id), id) == AddWidget(s, id)
  {
  }

  /**
   * Removing the widget just appended undoes the add, provided every
   * category with that id held the same number n of widgets.
   */
  lemma AddThenRemoveRestores(s: State, id: string, n: nat)
    requires PendingText(s.inputs, id) != ""
    requires forall j :: 0 <= j < |s.categories| && s.categories[j].id == id ==> |s.categories[j].widgets| == n
    ensures RemoveWidget(AddWidget(s, id), id, n).categories == s.categories
  {
    var a := AddWidget(s, id);
    var r := RemoveWidget(a, id, n);
    forall j | 0 <= j < |s.categories|
      ensures r.categories[j] == s.categories[j]
    {
      if s.categories[j].id == id {
        var ws := s.categories[j].widgets;
        assert a.categories[j].widgets == ws + [NewWidget(PendingText(s.inputs, id))];
        assert (ws + [NewWidget(PendingText(s.inputs, id))])[..n] == ws;
      }
    }
  }

  /** With text pending, the dashboard gains exactly as many widgets as there are categories with that id. */
  lemma AddWidgetTotal(s: State, id: string)
    requires PendingText(s.inputs, id) != ""
    ensures WidgetTotal(AddWidget(s, id).categories) == WidgetTotal(s.categories) + MatchCount(s.categories, id)
  {
    var w := NewWidget(PendingText(s.inputs, id));
    UpdateMatchingGrowsTotal(s.categories, id, ws => ws + [w]);
  }

  /** A position outside every matching category's list leaves the category list as it was. */
  lemma RemoveOutOfRangeIsNoOp(s: State, id: string, i: int)
    requires forall j :: 0 <= j < |s.categories| && s.categories[j].id == id ==> !(0 <= i < |s.categories[j].widgets|)
    ensures RemoveWidget(s, id, i) == s
  {
    var r := RemoveWidget(s, id, i);
    assert forall j :: 0 <= j < |s.categories| ==> r.categories[j] == s.categories[j];
  }

  /** An id no category has leaves the category list as it was, for add and for remove. */
  lemma UnknownCategoryIsNoOp(s: State, id: string, i: int)
    requires forall j :: 0 <= j < |s.categories| ==> s.categories[j].id != id
    ensures RemoveWidget(s, id, i) == s
    ensures AddWidget(s, id).categories == s.categories
  {
    var r := RemoveWidget(s, id, i);
    assert forall j :: 0 <= j < |s.categories| ==> r.categories[j] == s.categories[j];
    var a := AddWidget(s, id);
    assert forall j :: 0 <= j < |s.categories| ==> a.categories[j] == s.categories[j];
  }

  /** A user action in the dashboard. */
  datatype Action =
    | ToggleDrawer
    | ToggleCategory(id: string)
    | Type(id: string, text: string)
    | AddWidgetTo(id: string)
    | RemoveWidgetFrom(id: string, index: int)
    | AddNewCategory

  function Apply(s: State, a: Action): State {
    match a
    case ToggleDrawer => DrawerToggle(s)
    case ToggleCategory(id) => CategoryToggle(s, id)
    case Type(id, text) => InputChange(s, id, text)
    case AddWidgetTo(id) => AddWidget(s, id)
    case RemoveWidgetFrom(id, i) => RemoveWidget(s, id, i)
    case AddNewCategory => AddCategory(s)
  }

  function Run(s: State, actions: seq<Action>): State
    decreases |actions|
  {
    if actions == [] then s else Run(Apply(s, actions[0]), actions[1..])
  }

  /** Every handler keeps category ids unique, given the invariant on the list. */
  lemma ApplyKeepsWellFormed(s: State, a: Action)
    requires WellFormed(s.categories)
    ensures WellFormed(Apply(s, a).categories)
  {
    match a
    case AddWidgetTo(id) =>
      if PendingText(s.inputs, id) != "" {
        var w := NewWidget(PendingText(s.inputs, id));
        UpdateMatchingKeepsWellFormed(s.categories, id, ws => ws + [w]);
      }
    case RemoveWidgetFrom(id, i) =>
      UpdateMatchingKeepsWellFormed(s.categories, id, ws => DropIndex(ws, i));
    case AddNewCategory =>
      AppendNewKeepsWellFormed(s.categories);
      assert AddCategory(s).categories == AppendNew(s.categories);
    case _ =>
  }

  /**
   * From a seed whose ids are unique and which holds no generated id still
   * to come, no sequence of user actions duplicates a category id.
   */
  lemma {:induction false} RunKeepsIdsUnique(s: State, actions: seq<Action>)
    requires WellFormed(s.categories)
    ensures UniqueIds(Run(s, actions).categories)
    decreases |actions|
  {
    if actions != [] {
      ApplyKeepsWellFormed(s, actions[0]);
      RunKeepsIdsUnique(Apply(s, actions[0]), actions[1..]);
    }
  }

  /** `m` clicks on "Add New Category". */
  function AddCategoryClicks(m: nat): seq<Action> {
    seq(m, _ => AddNewCategory)
  }

  lemma {:induction false} RunAddCategories(s: State, m: nat)
    ensures Run(s, AddCategoryClicks(m)).categories == AppendNewTimes(s.categories, m)
    decreases m
  {
    if m > 0 {
      var actions := AddCategoryClicks(m);
      assert actions[1..] == AddCategoryClicks(m - 1);
      assert AddCategory(s).categories == AppendNew(s.categories);
      RunAddCategories(AddCategory(s), m - 1);
    }
  }

  /**
   * The invariant is exactly what is needed: from a seed with unique ids,
   * every action sequence keeps ids unique if and only if the seed holds no
   * generated id still to come. If it does, enough clicks on "Add New
   * Category" duplicate it.
   */
  lemma IdsStayUniqueExactly(s: State)
    requires UniqueIds(s.categories)
    ensures WellFormed(s.categories) ==> forall actions :: UniqueIds(Run(s, actions).categories)
    ensures !WellFormed(s.categories) ==>
              exists m: nat :: !UniqueIds(Run(s, AddCategoryClicks(m)).categories)
  {
    if WellFormed(s.categories) {
      forall actions
        ensures UniqueIds(Run(s, actions).categories)
      {
        RunKeepsIdsUnique(s, actions);
      }
    } else {
      var j: nat, k: nat :| j < |s.categories| && s.categories[j].id == AutoId(k) && k > |s.categories|;
      var m: nat := k - |s.categories|;
      FutureAutoIdCollides(s.categories, j, k);
      RunAddCategories(s, m);
      assert !UniqueIds(Run(s, AddCategoryClicks(m)).categories);
    }
  }
}
