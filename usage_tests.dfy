/** The usage of the repository's own test (Tests/ArgumentsTests/UsageTests.swift) and the
    help text the renderer draws from it, before any wrapping. */
module UsageTests {
  import opened Wrappers
  import opened Text
  import opened Usage

  const SomethingText := "This is something that you'll want to use."
  const AnotherText := "Another thing that might matter. This description is really long and should wrap to multiple lines. It's gonna get lengthy."
  const FlagText := "Turn this on for a good time."
  const AnotherDefault := "one bites the dust"

  const Something := ArgumentComponent(Both("s", "something"), description := SomethingText)
  const Another := OptionComponent(
    NameLiteral("another"), defaultValue := Some(AnotherDefault), description := AnotherText)
  const Flag := FlagComponent(NameLiteral("flag"), description := FlagText)

  const Example := Usage(
    Some("This is the overview"),
    Some(["this one", "that one"]),
    [[ComponentLiteral("command"), Something, Another, ComponentLiteral("literal"), Flag]])

  /** The compact forms of the example's one command form. */
  lemma ExampleComponentHelps()
    ensures var form := Example.commands[0];
      seq(|form|, i requires 0 <= i < |form| => ComponentHelp(form[i])) ==
        ["command", "[--something]", "[--another <another>]", "literal", "[--flag]"]
  {
    SomethingHelp();
    AnotherHelp();
    FlagHelp();
  }

  lemma SomethingHelp()
    ensures ComponentHelp(Something) == "[--something]"
  {
    assert ComponentHelp(Something) == "[" + ("--" + "something") + "]";
  }

  lemma AnotherHelp()
    ensures ComponentHelp(Another) == "[--another <another>]"
  {
    OptionalOptionHelp(Another, "another");
    AnotherBracketed();
  }

  lemma AnotherBracketed()
    ensures "[" + "--" + "another" + " <" + "another" + ">" + "]" == "[--another <another>]"
  {
    assert "[" + "--" + "another" == "[--another";
    assert "[--another" + " <" + "another" == "[--another <another";
    assert "[--another <another" + ">" + "]" == "[--another <another>]";
  }

  /** The compact form of an optional option with only a long name. */
  lemma OptionalOptionHelp(c: CommandComponent, n: string)
    requires c.Arg? && c.argument.name == Long(n) && c.argument.kind == OptionKind
    requires !c.argument.required
    ensures ComponentHelp(c) == "[" + "--" + n + " <" + n + ">" + "]"
  {
  }

  lemma FlagHelp()
    ensures ComponentHelp(Flag) == "[--flag]"
  {
    assert ComponentHelp(Flag) == "[" + ("--" + "flag") + "]";
  }

  lemma JoinFive(p: string, a: string, b: string, c: string, d: string, e: string, q: string)
    ensures p + Join([a, b, c, d, e], " ") + q == p + a + " " + b + " " + c + " " + d + " " + e + q
  {
    var s := [a, b, c, d, e];
    assert s[1..][1..] == s[2..] && s[2..][1..] == s[3..] && s[3..][1..] == s[4..];
    assert Join(s[3..], " ") == d + " " + e;
    assert Join(s[2..], " ") == c + " " + Join(s[3..], " ");
    assert Join(s[1..], " ") == b + " " + Join(s[2..], " ");
    assert Join(s, " ") == a + " " + Join(s[1..], " ");
  }

  lemma ExampleUsageLiteral()
    ensures "USAGE: " + "command" + " " + "[--something]" + " " + "[--another <another>]" + " " + "literal" + " " + "[--flag]" + "\n\n" ==
      "USAGE: command [--something] [--another <another>] literal [--flag]\n\n"
  {
    UsageLiteralStart();
    UsageLiteralMiddle();
    UsageLiteralEnd();
  }

  lemma UsageLiteralStart()
    ensures "USAGE: " + "command" + " " + "[--something]" == "USAGE: command [--something]"
  {
  }

  lemma UsageLiteralMiddle()
    ensures "USAGE: command [--something]" + " " + "[--another <another>]" + " " + "literal" ==
      "USAGE: command [--something] [--another <another>] literal"
  {
    assert "USAGE: command [--something]" + " " + "[--another <another>]" ==
      "USAGE: command [--something] [--another <another>]";
  }

  lemma UsageLiteralEnd()
    ensures "USAGE: command [--something] [--another <another>] literal" + " " + "[--flag]" + "\n\n" ==
      "USAGE: command [--something] [--another <another>] literal [--flag]\n\n"
  {
  }

  /** The USAGE line of the test, with its brackets around everything optional. */
  lemma ExampleUsageLine()
    ensures UsageSection(Example.commands) ==
      "USAGE: command [--something] [--another <another>] literal [--flag]\n\n"
  {
    ExampleComponentHelps();
    JoinFive("USAGE: ", "command", "[--something]", "[--another <another>]", "literal", "[--flag]", "\n\n");
    ExampleUsageLiteral();
  }

  /** The example's three arguments, whatever the order of the forms' components. */
  lemma ExampleArgumentSet()
    ensures forall a :: a in ArgumentSet(Example) <==>
      a == Something.argument || a == Another.argument || a == Flag.argument
  {
    var form := Example.commands[0];
    assert form[1] == Arg(Something.argument) && form[2] == Arg(Another.argument) && form[4] == Arg(Flag.argument);
  }

  lemma {:induction false} AllEqual(r: seq<Argument>, x: Argument)
    requires forall a :: a in r ==> a == x
    ensures multiset(r)[x] == |r|
  {
    if r != [] {
      assert r == [r[0]] + r[1..];
      assert r[0] in r;
      assert forall a :: a in r[1..] ==> a in r;
      AllEqual(r[1..], x);
    }
  }

  /** A list free of duplicates whose every element is `x`, and which holds `x`, is `[x]`. */
  lemma Single(r: seq<Argument>, x: Argument)
    requires NoDuplicates(r) && x in r
    requires forall a :: a in r ==> a == x
    ensures r == [x]
  {
    AllEqual(r, x);
    assert r[0] in r;
  }

  /** The only argument of kind `k` is `x`. */
  lemma OnlyOfKind(k: Kind, x: Argument)
    requires x in ArgumentSet(Example) && x.kind == k
    requires forall a :: a in ArgumentSet(Example) && a != x ==> a.kind != k
    ensures ArgumentsOfKind(Example, k) == [x]
  {
    var r := ArgumentsOfKind(Example, k);
    forall a | a in r
      ensures a == x
    {
      assert a in ArgumentSet(Example) && a.kind == k;
    }
    Single(r, x);
  }

  /** `uniqueArgumentsByKind` gives the example's one positional argument, ... */
  lemma ExampleArguments()
    ensures ArgumentsOfKind(Example, ArgumentKind) == [Something.argument]
  {
    ExampleArgumentSet();
    OnlyOfKind(ArgumentKind, Something.argument);
  }

  /** ... its one option ... */
  lemma ExampleOptions()
    ensures ArgumentsOfKind(Example, OptionKind) == [Another.argument]
  {
    ExampleArgumentSet();
    OnlyOfKind(OptionKind, Another.argument);
  }

  /** ... and its one flag. */
  lemma ExampleFlags()
    ensures ArgumentsOfKind(Example, FlagKind) == [Flag.argument]
  {
    ExampleArgumentSet();
    OnlyOfKind(FlagKind, Flag.argument);
  }

  /** The verbose names of the example's arguments. */
  lemma SomethingName()
    ensures HelpName(Something.argument) == "-s, --something"
  {
    var a := Something.argument;
    assert a.name == Both("s", "something") && a.kind == ArgumentKind;
    assert HelpName(a) == "-" + "s" + ", --" + "something";
    SomethingSpelling();
  }

  lemma SomethingSpelling()
    ensures "-" + "s" + ", --" + "something" == "-s, --something"
  {
    assert "-" + "s" == "-s";
    assert "-s" + ", --" == "-s, --";
    assert "-s, --" + "something" == "-s, --something";
  }

  lemma AnotherName()
    ensures HelpName(Another.argument) == "--another <another>"
  {
    var a := Another.argument;
    assert a.name == Long("another") && a.kind == OptionKind;
    assert HelpName(a) == "--" + "another" + " <" + "another" + ">";
    AnotherSpelling();
  }

  lemma AnotherSpelling()
    ensures "--" + "another" + " <" + "another" + ">" == "--another <another>"
  {
    assert "--" + "another" == "--another";
    assert "--another" + " <" == "--another <";
    assert "--another <" + "another" == "--another <another";
    assert "--another <another" + ">" == "--another <another>";
  }

  lemma FlagName()
    ensures HelpName(Flag.argument) == "--flag"
  {
    var a := Flag.argument;
    assert a.name == Long("flag") && a.kind == FlagKind;
    assert HelpName(a) == "--" + "flag";
    assert "--" + "flag" == "--flag";
  }

  /** Any usage with the example's three arguments has "--another <another>", 19
      characters, as its widest verbose name. */
  lemma WidthOfThree(u: Usage)
    requires forall a :: a in ArgumentSet(u) <==>
      a == Something.argument || a == Another.argument || a == Flag.argument
    ensures WidestArgument(u) == 19
  {
    assert Another.argument in ArgumentSet(u);
    LongestOfThree(ArgumentSet(u), WidestArgument(u));
  }

  lemma LongestOfThree(arguments: set<Argument>, w: nat)
    requires forall a :: a in arguments <==>
      a == Something.argument || a == Another.argument || a == Flag.argument
    requires forall a :: a in arguments ==> |HelpName(a)| <= w
    requires exists a :: a in arguments && |HelpName(a)| == w
    ensures w == 19
  {
    SomethingName();
    AnotherName();
    FlagName();
    assert forall b :: b in arguments ==> |HelpName(b)| <= 19;
    assert Another.argument in arguments;
  }

  lemma ExampleWidth()
    ensures WidestArgument(Example) == 19
  {
    ExampleArgumentSet();
    WidthOfThree(Example);
  }

  /** The ARGUMENTS line of the test: the name padded to column 19, then the tab. */
  lemma SomethingEntry(a: Argument)
    requires HelpName(a) == "-s, --something" && a.defaultValue.None?
    ensures EntryLine(a, 19) == " -s, --something        " + a.description
  {
    EntryLineText(a, 19);
    SomethingColumn();
    assert a.description + DefaultSuffix(a.defaultValue) == a.description;
  }

  lemma SomethingColumn()
    ensures " " + PadTo("-s, --something", 19) + Tab == " -s, --something        "
  {
    assert Spaces(4) == "    ";
    assert PadTo("-s, --something", 19) == "-s, --something" + "    ";
    SomethingPadded();
  }

  lemma SomethingPadded()
    ensures " " + ("-s, --something" + "    ") + "    " == " -s, --something        "
  {
    assert " " + "-s, --something" == " -s, --something";
    assert " -s, --something" + "    " == " -s, --something    ";
    assert " -s, --something    " + "    " == " -s, --something        ";
  }

  /** The option's line: the widest name needs no padding; the default follows the
      description. */
  lemma AnotherEntry(a: Argument)
    requires HelpName(a) == "--another <another>" && a.defaultValue.Some?
    ensures EntryLine(a, 19) ==
      " --another <another>    " + a.description + " (default: " + a.defaultValue.value + ")"
  {
    var d := a.defaultValue.value;
    EntryLineText(a, 19);
    AnotherColumn();
    assert DefaultSuffix(a.defaultValue) == " (default: " + d + ")";
    Regroup(" --another <another>    ", a.description, " (default: ", d, ")");
  }

  lemma AnotherColumn()
    ensures " " + PadTo("--another <another>", 19) + Tab == " --another <another>    "
  {
    assert |"--another <another>"| == 19;
    assert PadTo("--another <another>", 19) == "--another <another>";
    assert " " + "--another <another>" == " --another <another>";
    assert " --another <another>" + Tab == " --another <another>    ";
  }

  lemma FlagEntry(a: Argument)
    requires HelpName(a) == "--flag" && a.defaultValue.None?
    ensures EntryLine(a, 19) == " --flag                 " + a.description
  {
    EntryLineText(a, 19);
    FlagColumn();
    assert a.description + DefaultSuffix(a.defaultValue) == a.description;
  }

  lemma FlagColumn()
    ensures " " + PadTo("--flag", 19) + Tab == " --flag                 "
  {
    assert Spaces(13) == "             ";
    assert PadTo("--flag", 19) == "--flag" + "             ";
    assert " " + "--flag" == " --flag";
    assert " --flag" + "             " == " --flag             ";
    assert " --flag             " + Tab == " --flag                 ";
  }


  /** The ARGUMENTS section of one argument shown as "-s, --something" at width 19. */
  lemma ArgumentsBlock(a: Argument)
    requires HelpName(a) == "-s, --something" && a.defaultValue.None?
    ensures ArgumentSection("ARGUMENTS", [a], 19) ==
      "ARGUMENTS:\n" + " -s, --something        " + a.description + "\n\n"
  {
    SomethingEntry(a);
    assert EntryLines([a], 19) == [EntryLine(a, 19)];
    assert "ARGUMENTS" + ":\n" == "ARGUMENTS:\n";
    Regroup("ARGUMENTS:\n", " -s, --something        ", a.description, "\n\n", "");
  }

  /** The OPTIONS section of an option shown as "--another <another>" and a flag shown as
      "--flag", at width 19. */
  lemma OptionsBlock(o: Argument, f: Argument)
    requires HelpName(o) == "--another <another>" && o.defaultValue.Some?
    requires HelpName(f) == "--flag" && f.defaultValue.None?
    ensures ArgumentSection("OPTIONS", [o, f], 19) ==
      "OPTIONS:\n"
      + (" --another <another>    " + o.description + " (default: " + o.defaultValue.value + ")") + "\n"
      + (" --flag                 " + f.description) + "\n\n"
  {
    AnotherEntry(o);
    FlagEntry(f);
    var e1, e2 := EntryLine(o, 19), EntryLine(f, 19);
    assert EntryLines([o, f], 19) == [e1, e2];
    assert Join([e1, e2], "\n") == e1 + "\n" + e2 by {
      assert [e1, e2][1..] == [e2];
    }
    assert "OPTIONS" + ":\n" == "OPTIONS:\n";
    assert ArgumentSection("OPTIONS", [o, f], 19) == "OPTIONS:\n" + (e1 + "\n" + e2) + "\n\n";
    Regroup("OPTIONS:\n", e1, "\n", e2, "\n\n");
  }

  lemma ExampleOverview()
    ensures OverviewSection(Example.overview) == "OVERVIEW: This is the overview\n\n"
  {
    assert "OVERVIEW: " + "This is the overview" == "OVERVIEW: This is the overview";
  }

  lemma ExampleSeeAlso()
    ensures SeeAlsoSection(Example.seeAlso) == "SEE ALSO: this one, that one\n\n"
  {
    var also := ["this one", "that one"];
    assert also[1..] == ["that one"];
    assert Join(also, ", ") == "this one" + ", " + "that one";
    assert "SEE ALSO: " + "this one" == "SEE ALSO: this one";
    assert "SEE ALSO: this one" + ", " == "SEE ALSO: this one, ";
    assert "SEE ALSO: this one, " + "that one" == "SEE ALSO: this one, that one";
  }

  /** The test's ARGUMENTS section. */
  lemma ExampleArgumentsSection()
    ensures ArgumentsSection(Example) ==
      "ARGUMENTS:\n" + " -s, --something        " + SomethingText + "\n\n"
  {
    SomethingName();
    ArgumentsBlock(Something.argument);
    ExampleArguments();
    ExampleWidth();
    SectionsFromLists(Example, [Something.argument], [], 19);
  }

  lemma OptionsOf(u: Usage, o: Argument, f: Argument)
    requires ArgumentsOfKind(u, OptionKind) == [o] && ArgumentsOfKind(u, FlagKind) == [f]
    ensures OptionsAndFlags(u) == [o, f]
  {
  }

  /** The test's OPTIONS section: the option, then the flag. */
  lemma ExampleOptionsSection()
    ensures OptionsSection(Example) ==
      "OPTIONS:\n"
      + (" --another <another>    " + AnotherText + " (default: " + AnotherDefault + ")") + "\n"
      + (" --flag                 " + FlagText) + "\n\n"
  {
    AnotherName();
    FlagName();
    assert Another.argument.description == AnotherText && Another.argument.defaultValue == Some(AnotherDefault);
    assert Flag.argument.description == FlagText;
    OptionsBlock(Another.argument, Flag.argument);
    ExampleArguments();
    ExampleOptions();
    ExampleFlags();
    ExampleWidth();
    OptionsOf(Example, Another.argument, Flag.argument);
    SectionsFromLists(Example, [Something.argument], [Another.argument, Flag.argument], 19);
  }

  /** The help text of the test's usage, section by section, descriptions unwrapped. */
  lemma ExampleHelp()
    ensures HelpText(Example) ==
      "OVERVIEW: This is the overview\n\n"
      + "SEE ALSO: this one, that one\n\n"
      + "USAGE: command [--something] [--another <another>] literal [--flag]\n\n"
      + ("ARGUMENTS:\n"
      + " -s, --something        " + SomethingText + "\n\n")
      + ("OPTIONS:\n"
      + (" --another <another>    " + AnotherText + " (default: " + AnotherDefault + ")") + "\n"
      + (" --flag                 " + FlagText) + "\n\n")
  {
    ExampleOverview();
    ExampleSeeAlso();
    ExampleUsageLine();
    ExampleArgumentsSection();
    ExampleOptionsSection();
  }
}
