/** String-literal identities used by the worked examples, kept apart from the string functions. */
module Literals {
  lemma CloudAccounts()
    ensures "Cloud Accounts" == "Cloud" + (" " + "Accounts")
    ensures "cloud" + ("-" + "accounts") == "cloud-accounts"
  {
  }

  lemma MyWidget()
    ensures "My  Widget" == "My" + ("  " + "Widget")
    ensures "my" + ("-" + "widget") == "my-widget"
  {
  }

  lemma TestOne()
    ensures "Test One" == "Test" + (" " + "One")
    ensures "test" + ("-" + "one") == "test-one"
  {
  }

  lemma Padded()
    ensures " a " == " " + ("a" + " ")
    ensures "-" + ("a" + "-") == "-a-"
  {
  }
}

/** Worked examples: derived ids, and an end-to-end run of the handlers. */
module Scenarios {
  import opened Wrappers
  import opened Model
  import opened Slug
  import opened Dashboard
  import opened Render
  import Literals

  lemma Word(w: string, lower: string)
    requires NoSpace(w) && LowerAll(w) == lower
    ensures Slugify(w) == lower
  {
    SlugifyNoSpace(w);
  }

  /** The whitespace runs of the examples: one space and two spaces. */
  lemma Gaps()
    ensures Slugify(" ") == "-" && Slugify("  ") == "-"
  {
    SlugifyAllSpace(" ");
    SlugifyAllSpace("  ");
  }

  /** Joins the slugs of a word, a whitespace run and another word. */
  lemma ThreePieces(a: string, gap: string, b: string, la: string, lb: string)
    requires a != [] && !IsSpace(a[|a| - 1]) && b != [] && !IsSpace(b[0])
    requires Slugify(a) == la && Slugify(gap) == "-" && Slugify(b) == lb
    ensures Slugify(a + (gap + b)) == la + ("-" + lb)
  {
    SlugifyAppend(gap, b);
    SlugifyAppend(a, gap + b);
  }

  /** The single words of the examples become their lower-case forms. */
  lemma Words()
    ensures Slugify("Cloud") == "cloud" && Slugify("Accounts") == "accounts"
    ensures Slugify("My") == "my" && Slugify("Widget") == "widget"
    ensures Slugify("Test") == "test" && Slugify("One") == "one"
    ensures Slugify("a") == "a"
  {
    WordCloud();
    WordAccounts();
    WordMy();
    WordWidget();
    WordTest();
    WordOne();
    Word("a", "a");
  }

  lemma WordCloud()
    ensures Slugify("Cloud") == "cloud"
  {
    Word("Cloud", "cloud");
  }

  lemma WordAccounts()
    ensures Slugify("Accounts") == "accounts"
  {
    Word("Accounts", "accounts");
  }

  lemma WordMy()
    ensures Slugify("My") == "my"
  {
    Word("My", "my");
  }

  lemma WordWidget()
    ensures Slugify("Widget") == "widget"
  {
    Word("Widget", "widget");
  }

  lemma WordTest()
    ensures Slugify("Test") == "test"
  {
    Word("Test", "test");
  }

  lemma WordOne()
    ensures Slugify("One") == "one"
  {
    Word("One", "one");
  }

  lemma CloudAccountsSlug()
    ensures Slugify("Cloud Accounts") == "cloud-accounts"
  {
    Words();
    Gaps();
    ThreePieces("Cloud", " ", "Accounts", "cloud", "accounts");
    Literals.CloudAccounts();
  }

  /** A run of two spaces collapses to one '-'. */
  lemma MyWidgetSlug()
    ensures Slugify("My  Widget") == "my-widget"
  {
    Words();
    Gaps();
    ThreePieces("My", "  ", "Widget", "my", "widget");
    Literals.MyWidget();
  }

  lemma TestOneSlug()
    ensures Slugify("Test One") == "test-one"
  {
    Words();
    Gaps();
    ThreePieces("Test", " ", "One", "test", "one");
    Literals.TestOne();
  }

  /** Leading and trailing whitespace is not trimmed: each run still becomes '-'. */
  lemma NotTrimmed()
    ensures Slugify(" a ") == "-a-"
  {
    Gaps();
    Words();
    SlugifyAppend("a", " ");
    SlugifyAppend(" ", "a" + " ");
    Literals.Padded();
  }

  /** Typing "Cloud Accounts" into the drawer adds a widget that shows the hard-wired two-slice chart. */
  lemma AddedCloudAccountsShowsChart()
    ensures RenderWidget(NewWidget("Cloud Accounts")) == CloudAccountsChart
  {
    CloudAccountsSlug();
  }

  /**
   * Seed one category "cloud" holding the cloud-accounts widget, type
   * "Test One" into its field, add, then remove position 0: the category is
   * left holding just the added widget, which renders as empty text.
   */
  lemma AddThenRemoveFirst()
    ensures
      var seeded := Widget("cloud-accounts", "Cloud Accounts", "", None, None, None);
      var s0 := Init([Category("cloud", "Cloud", [seeded])]);
      var s1 := InputChange(s0, "cloud", "Test One");
      var s2 := AddWidget(s1, "cloud");
      var s3 := RemoveWidget(s2, "cloud", 0);
      && |s2.categories[0].widgets| == 2
      && s2.categories[0].widgets[1].id == "test-one"
      && s2.categories[0].widgets[1].content == ""
      && PendingText(s2.inputs, "cloud") == ""
      && s3.categories[0].widgets == [NewWidget("Test One")]
      && RenderWidget(s3.categories[0].widgets[0]) == Text("")
  {
    TestOneSlug();
    var seeded := Widget("cloud-accounts", "Cloud Accounts", "", None, None, None);
    var s0 := Init([Category("cloud", "Cloud", [seeded])]);
    var s1 := InputChange(s0, "cloud", "Test One");
    assert PendingText(s1.inputs, "cloud") == "Test One";
    var s2 := AddWidget(s1, "cloud");
    assert s2.categories[0].widgets == [seeded, NewWidget("Test One")];
    var s3 := RemoveWidget(s2, "cloud", 0);
    assert s3.categories[0].widgets == [seeded, NewWidget("Test One")][1..];
  }
}
