/** Rewrites of the category list, and the id discipline they keep. */
module Categories {
  import opened Model
  import opened Decimal
  import opened Wrappers

  /**
   * Maps over the list, replacing the widget list of every category whose id
   * is `id` by `f` of it; a category with another id is kept as it is.
   */
  function UpdateMatching(cats: seq<Category>, id: string, f: seq<Widget> -> seq<Widget>): (r: seq<Category>)
    ensures |r| == |cats|
    ensures forall j :: 0 <= j < |cats| && cats[j].id != id ==> r[j] == cats[j]
    ensures forall j :: 0 <= j < |cats| && cats[j].id == id ==>
              r[j].id == id && r[j].name == cats[j].name && r[j].widgets == f(cats[j].widgets)
    decreases |cats|
  {
    if cats == [] then []
    else
      var head := if cats[0].id == id then cats[0].(widgets := f(cats[0].widgets)) else cats[0];
      [head] + UpdateMatching(cats[1..], id, f)
  }

  /**
   * Filters a list by position, keeping every element whose index differs
   * from `i`; `i` may be any integer.
   */
  function DropIndex<T>(xs: seq<T>, i: int): (r: seq<T>)
    ensures 0 <= i < |xs| ==> |r| == |xs| - 1
    ensures 0 <= i < |xs| ==> forall j :: 0 <= j < i ==> r[j] == xs[j]
    ensures 0 <= i < |xs| ==> forall j :: i <= j < |r| ==> r[j] == xs[j + 1]
    ensures !(0 <= i < |xs|) ==> r == xs
    decreases |xs|
  {
    if xs == [] then []
    else (if i == 0 then [] else [xs[0]]) + DropIndex(xs[1..], i - 1)
  }

  /** Removing position i is cutting the list around it. */
  lemma {:induction false} DropIndexSplit<T>(xs: seq<T>, i: int)
    requires 0 <= i < |xs|
    ensures DropIndex(xs, i) == xs[..i] + xs[i + 1..]
    decreases |xs|
  {
    if i > 0 {
      DropIndexSplit(xs[1..], i - 1);
      assert xs[1..][..i - 1] == xs[1..i];
      assert xs[1..][i..] == xs[i + 1..];
      assert xs[..i] == [xs[0]] + xs[1..i];
    }
  }

  /** Removing position i takes exactly one copy of that element out of the list's contents. */
  lemma DropIndexMultiset<T>(xs: seq<T>, i: int)
    requires 0 <= i < |xs|
    ensures multiset(DropIndex(xs, i)) + multiset{xs[i]} == multiset(xs)
  {
    var r := DropIndex(xs, i);
    DropIndexSplit(xs, i);
    CutMultiset(xs, i);
    assert multiset(r) == multiset(xs[..i] + xs[i + 1..]);
  }

  lemma CutMultiset<T>(xs: seq<T>, i: int)
    requires 0 <= i < |xs|
    ensures multiset(xs[..i] + xs[i + 1..]) + multiset{xs[i]} == multiset(xs)
  {
    var a, b := xs[..i], xs[i + 1..];
    assert xs == a + ([xs[i]] + b);
  }

  /** The number of widgets over all categories. */
  function WidgetTotal(cats: seq<Category>): nat
    decreases |cats|
  {
    if cats == [] then 0 else |cats[0].widgets| + WidgetTotal(cats[1..])
  }

  /** The number of categories whose id is `id`. */
  function MatchCount(cats: seq<Category>, id: string): nat
    decreases |cats|
  {
    if cats == [] then 0 else (if cats[0].id == id then 1 else 0) + MatchCount(cats[1..], id)
  }

  /** A rewrite that lengthens each list by one adds exactly one widget per matching category. */
  lemma {:induction false} UpdateMatchingGrowsTotal(cats: seq<Category>, id: string, f: seq<Widget> -> seq<Widget>)
    requires forall ws :: |f(ws)| == |ws| + 1
    ensures WidgetTotal(UpdateMatching(cats, id, f)) == WidgetTotal(cats) + MatchCount(cats, id)
    decreases |cats|
  {
    if cats != [] {
      var r := UpdateMatching(cats, id, f);
      assert r[1..] == UpdateMatching(cats[1..], id, f);
      UpdateMatchingGrowsTotal(cats[1..], id, f);
    }
  }

  /** The id a new category receives when the list holds n - 1 categories. */
  function AutoId(n: nat): string {
    AutoPrefix + Show(n)
  }

  /** The category appended to a list of n categories. */
  function NewCategory(n: nat): (c: Category)
    ensures c.widgets == []
    ensures HasAutoPrefix(c.id) && NumberAfter(c.id, |AutoPrefix|) == Some(n + 1)
    ensures |c.name| >= |NamePrefix| && c.name[..|NamePrefix|] == NamePrefix
    ensures NumberAfter(c.name, |NamePrefix|) == Some(n + 1)
    ensures c.id == AutoPrefix + Show(n + 1) && c.name == NamePrefix + Show(n + 1)
  {
    ParseShow(n + 1);
    var c := Category(AutoId(n + 1), NamePrefix + Show(n + 1), []);
    assert c.id[|AutoPrefix|..] == Show(n + 1);
    assert c.name[|NamePrefix|..] == Show(n + 1);
    c
  }

  const NamePrefix: string := "New Category "

  /** The number written in decimal after the first k characters of s, if only digits follow. */
  function NumberAfter(s: string, k: nat): Option<nat> {
    if k <= |s| && AllDigits(s[k..]) then Some(Parse(s[k..])) else None
  }

  const AutoPrefix: string := "category-"

  predicate HasAutoPrefix(id: string) {
    |id| >= |AutoPrefix| && id[..|AutoPrefix|] == AutoPrefix
  }

  /** The list of category ids; the ids are unique exactly when this list has no repeated entry. */
  function Ids(cats: seq<Category>): (r: seq<string>)
    ensures |r| == |cats|
    ensures forall j :: 0 <= j < |cats| ==> r[j] == cats[j].id
    ensures UniqueIds(cats) <==> forall j, k :: 0 <= j < k < |r| ==> r[j] != r[k]
  {
    seq(|cats|, j requires 0 <= j < |cats| => cats[j].id)
  }

  predicate UniqueIds(cats: seq<Category>) {
    forall j, k :: 0 <= j < k < |cats| ==> cats[j].id != cats[k].id
  }

  /**
   * No category already carries an id the program would generate later:
   * every id of the form "category-k" has k at most the list length.
   */
  ghost predicate NoFutureAutoId(cats: seq<Category>) {
    forall j, k: nat :: 0 <= j < |cats| && cats[j].id == AutoId(k) ==> k <= |cats|
  }

  /**
   * The list invariant under which no future action duplicates a category
   * id: ids are unique and none is a generated id still to come.
   */
  ghost predicate WellFormed(cats: seq<Category>) {
    UniqueIds(cats) && NoFutureAutoId(cats)
  }

  lemma AutoIdInjective(m: nat, n: nat)
    requires AutoId(m) == AutoId(n)
    ensures m == n
  {
    assert AutoId(m)[|AutoPrefix|..] == Show(m);
    assert AutoId(n)[|AutoPrefix|..] == Show(n);
    ShowInjective(m, n);
  }

  /** Under the invariant the id about to be generated is not yet taken. */
  lemma AutoIdFresh(cats: seq<Category>)
    requires NoFutureAutoId(cats)
    ensures forall j :: 0 <= j < |cats| ==> cats[j].id != AutoId(|cats| + 1)
  {
  }

  /** Appending the generated category keeps the list well formed. */
  lemma AppendNewKeepsWellFormed(cats: seq<Category>)
    requires WellFormed(cats)
    ensures WellFormed(AppendNew(cats))
  {
    AutoIdFresh(cats);
    var r := AppendNew(cats);
    forall j, k: nat | 0 <= j < |r| && r[j].id == AutoId(k)
      ensures k <= |r|
    {
      if j == |cats| {
        AutoIdInjective(k, |cats| + 1);
      }
    }
  }

  /** The list after adding one generated category. */
  function AppendNew(cats: seq<Category>): seq<Category> {
    cats + [NewCategory(|cats|)]
  }

  /** The list after adding m generated categories in a row. */
  function AppendNewTimes(cats: seq<Category>, m: nat): seq<Category>
    decreases m
  {
    if m == 0 then cats else AppendNewTimes(AppendNew(cats), m - 1)
  }

  /** Adding m categories keeps the list as a prefix, and the last one added is numbered |cats| + m. */
  lemma {:induction false} AppendNewTimesShape(cats: seq<Category>, m: nat)
    ensures var r := AppendNewTimes(cats, m);
            && |r| == |cats| + m
            && r[..|cats|] == cats
            && (m > 0 ==> r[|r| - 1].id == AutoId(|cats| + m))
    decreases m
  {
    if m > 0 {
      var next := AppendNew(cats);
      AppendNewTimesShape(next, m - 1);
      var r := AppendNewTimes(cats, m);
      assert r[..|next|][..|cats|] == r[..|cats|];
      assert next[..|cats|] == cats;
    }
  }

  /**
   * The invariant cannot be weakened: a category carrying a generated id
   * numbered above the list length collides with the category that enough
   * adds will generate.
   */
  lemma FutureAutoIdCollides(cats: seq<Category>, j: nat, k: nat)
    requires j < |cats| && k > |cats| && cats[j].id == AutoId(k)
    ensures !UniqueIds(AppendNewTimes(cats, k - |cats|))
  {
    var r := AppendNewTimes(cats, k - |cats|);
    AppendNewTimesShape(cats, k - |cats|);
    assert r[j] == r[..|cats|][j];
    assert r[j].id == r[|r| - 1].id;
  }

  /** Rewriting widget lists keeps the ids, so it keeps the invariant. */
  lemma UpdateMatchingKeepsWellFormed(cats: seq<Category>, id: string, f: seq<Widget> -> seq<Widget>)
    ensures Ids(UpdateMatching(cats, id, f)) == Ids(cats)
    ensures WellFormed(cats) ==> WellFormed(UpdateMatching(cats, id, f))
  {
    var r := UpdateMatching(cats, id, f);
    assert forall j :: 0 <= j < |r| ==> r[j].id == cats[j].id;
  }

  /** An instance: a seed holding "category-2" in a list of one collides on the next add. */
  lemma GeneratedIdCanCollide()
    ensures var seed := [Category("category-2", "Seed", [])];
            !UniqueIds(seed + [NewCategory(|seed|)])
  {
    var seed := [Category("category-2", "Seed", [])];
    assert Show(2) == "2";
    assert AutoId(2) == "category-2";
    assert NewCategory(1).id == AutoId(2);
    var r := seed + [NewCategory(|seed|)];
    assert r[1].id == AutoId(2);
    assert r[0].id == r[1].id;
  }
}
