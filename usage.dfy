/** The usage renderer: a declarative description of a command's accepted forms and the
    help text drawn from it (Sources/Arguments/Usage.swift). */
module Usage {
  import opened Wrappers
  import opened Text
  import opened Sorting

  /** The four-space separator the renderer calls `tab`. */
  const Tab: string := "    "

  lemma TabIsBlank()
    ensures |Tab| == 4 && forall i :: 0 <= i < |Tab| ==> Tab[i] == ' '
  {
  }

  /** `Argument.Name`: how an argument is spelled on the command line. */
  datatype Name = Both(short: string, long: string) | Short(short: string) | Long(long: string)

  /** `Argument.Kind`. */
  datatype Kind = OptionKind | ArgumentKind | FlagKind

  /** `Argument`. Equality, and so deduplication, is on all five fields. */
  datatype Argument = Argument(
    kind: Kind,
    name: Name,
    description: string,
    required: bool,
    defaultValue: Option<string>)

  /** `CommandComponent`: a word shown verbatim, or an argument placeholder. */
  datatype CommandComponent = Raw(text: string) | Arg(argument: Argument)

  /** `Usage`: an optional overview, optional related commands, and the accepted command
      forms, each a sequence of components. As in `init(overview:seeAlso:commands:)`, the
      overview and the related commands default to none. */
  datatype Usage = Usage(
    overview: Option<string> := None,
    seeAlso: Option<seq<string>> := None,
    commands: seq<seq<CommandComponent>>)

  // ---------------------------------------------------------------------------------
  // Names

  /** A string literal used as a name denotes the long spelling. */
  function NameLiteral(value: string): (n: Name)
    ensures n.Long? && NameText(n) == value && NameCommandHelp(n) == "--" + value
  {
    Long(value)
  }

  /** `Name.name`: the long spelling whenever there is one. */
  function NameText(n: Name): (r: string)
    ensures n.Short? ==> r == n.short
    ensures !n.Short? ==> r == n.long
  {
    match n
    case Both(_, long) => long
    case Short(short) => short
    case Long(long) => long
  }

  /** `Name.commandHelp`: the preferred spelling behind its dash prefix. */
  function NameCommandHelp(n: Name): (r: string)
    ensures r == (if n.Short? then "-" else "--") + NameText(n)
  {
    match n
    case Both(_, long) => "--" + long
    case Short(short) => "-" + short
    case Long(long) => "--" + long
  }

  /** `Name.argumentHelp`: both spellings when there are two, else the compact form. */
  function NameArgumentHelp(n: Name): (r: string)
    ensures r == (if n.Both? then "-" + n.short + ", " else "") + NameCommandHelp(n)
  {
    match n
    case Both(short, long) => "-" + short + ", --" + long
    case Short(short) => "-" + short
    case Long(long) => "--" + long
  }

  // ---------------------------------------------------------------------------------
  // Arguments

  /** The value placeholder that only options carry: " <name>". */
  function Placeholder(a: Argument): (r: string)
    ensures r != "" <==> a.kind == OptionKind
  {
    if a.kind == OptionKind then " <" + NameText(a.name) + ">" else ""
  }

  /** `Argument.commandHelp`: the compact form, in brackets exactly when the argument is
      not required. */
  function CommandHelp(a: Argument): (r: string)
    ensures a.required ==> r == NameCommandHelp(a.name) + Placeholder(a)
    ensures !a.required ==> r == "[" + NameCommandHelp(a.name) + Placeholder(a) + "]"
    ensures r != [] && (r[0] == '[' <==> !a.required)
  {
    var help := NameCommandHelp(a.name) + Placeholder(a);
    if a.required then help else "[" + help + "]"
  }

  /** `argumentHelpName()` with no padding: the verbose name, which is the sort key. */
  function HelpName(a: Argument): string
  {
    match a.kind
    case OptionKind => NameArgumentHelp(a.name) + " <" + NameText(a.name) + ">"
    case ArgumentKind => NameArgumentHelp(a.name)
    case FlagKind => NameArgumentHelp(a.name)
  }

  /** The verbose name is the compact one with the short spelling put in front when
      there are two, and without the brackets. */
  lemma HelpNameForms(a: Argument)
    ensures HelpName(a) == NameArgumentHelp(a.name) + Placeholder(a)
    ensures !a.name.Both? ==> HelpName(a) == NameCommandHelp(a.name) + Placeholder(a)
    ensures !a.name.Both? && a.required ==> HelpName(a) == CommandHelp(a)
  {
  }

  /** `argumentHelpName(paddedToLength:)`: the verbose name, padded with spaces (or cut)
      to exactly the given length when one is given. */
  function ArgumentHelpName(a: Argument, padding: Option<nat>): (r: string)
    ensures padding.None? ==> r == HelpName(a)
    ensures padding.Some? ==> |r| == padding.value
    ensures padding.Some? && |HelpName(a)| <= padding.value ==>
      r[..|HelpName(a)|] == HelpName(a) && forall i :: |HelpName(a)| <= i < |r| ==> r[i] == ' '
    ensures padding.Some? && padding.value <= |HelpName(a)| ==> r == HelpName(a)[..padding.value]
  {
    var helpName := HelpName(a);
    if padding.Some? then PadTo(helpName, padding.value) else helpName
  }

  /** The " (default: value)" suffix, empty when there is no default. */
  function DefaultSuffix(d: Option<string>): (r: string)
    ensures r == "" <==> d.None?
  {
    if d.Some? then " (default: " + d.value + ")" else ""
  }

  /** `argumentHelp(paddedToLength:)`: the (padded) verbose name, the tab, the
      description and, when there is a default, " (default: value)". */
  function ArgumentHelp(a: Argument, padding: Option<nat>): (r: string)
    ensures var n := |ArgumentHelpName(a, padding)|;
      |r| == n + |Tab| + |a.description| + |DefaultSuffix(a.defaultValue)| &&
      r[..n] == ArgumentHelpName(a, padding) &&
      r[n..n + |Tab|] == Tab &&
      r[n + |Tab|..] == a.description + DefaultSuffix(a.defaultValue)
  {
    ArgumentHelpName(a, padding) + Tab + (a.description + DefaultSuffix(a.defaultValue))
  }



  // ---------------------------------------------------------------------------------
  // Command components

  /** The `.option(...)` factory: copies its parameters into an option argument. */
  function OptionComponent(
    name: Name, required: bool := false, defaultValue: Option<string> := None,
    description: string := ""): (c: CommandComponent)
    ensures c.Arg? && c.argument.kind == OptionKind && c.argument.name == name
    ensures c.argument.required == required && c.argument.defaultValue == defaultValue
    ensures c.argument.description == description
  {
    Arg(Argument(OptionKind, name, description, required, defaultValue))
  }

  /** The `.argument(...)` factory: copies its parameters into a positional argument. */
  function ArgumentComponent(
    name: Name, required: bool := false, defaultValue: Option<string> := None,
    description: string := ""): (c: CommandComponent)
    ensures c.Arg? && c.argument.kind == ArgumentKind && c.argument.name == name
    ensures c.argument.required == required && c.argument.defaultValue == defaultValue
    ensures c.argument.description == description
  {
    Arg(Argument(ArgumentKind, name, description, required, defaultValue))
  }

  /** The `.flag(...)` factory: a flag is never required and has no default, so its
      compact form is always bracketed. */
  function FlagComponent(name: Name, description: string := ""): (c: CommandComponent)
    ensures c.Arg? && c.argument.kind == FlagKind && c.argument.name == name
    ensures !c.argument.required && c.argument.defaultValue.None?
    ensures c.argument.description == description
    ensures CommandHelp(c.argument) == "[" + NameCommandHelp(name) + "]"
  {
    Arg(Argument(FlagKind, name, description, false, None))
  }

  /** `CommandComponent(stringLiteral:)`: a string literal is a raw word. */
  function ComponentLiteral(value: string): (c: CommandComponent)
    ensures c.Raw? && ComponentHelp(c) == value
  {
    Raw(value)
  }

  /** `CommandComponent.help`: a raw word as written, an argument in compact form. */
  function ComponentHelp(c: CommandComponent): (r: string)
    ensures c.Raw? ==> r == c.text
    ensures c.Arg? ==> r == CommandHelp(c.argument)
  {
    match c
    case Raw(raw) => raw
    case Arg(argument) => CommandHelp(argument)
  }

  /** One command form on one line: its components' help joined by single spaces. */
  function FormHelp(form: seq<CommandComponent>): (r: string)
    ensures form == [] ==> r == ""
    ensures |form| == 1 ==> r == ComponentHelp(form[0])
  {
    Join(ComponentHelps(form), " ")
  }

  /** The help of each component, in order. */
  function ComponentHelps(form: seq<CommandComponent>): seq<string>
  {
    seq(|form|, i requires 0 <= i < |form| => ComponentHelp(form[i]))
  }

  /** The components of two forms, shown on one line, are the two forms' lines with a
      single space between them. */
  lemma FormHelpAppend(f: seq<CommandComponent>, g: seq<CommandComponent>)
    requires f != [] && g != []
    ensures FormHelp(f + g) == FormHelp(f) + " " + FormHelp(g)
  {
    assert ComponentHelps(f + g) == ComponentHelps(f) + ComponentHelps(g);
    JoinAppend(ComponentHelps(f), ComponentHelps(g), " ");
  }

  // ---------------------------------------------------------------------------------
  // The argument set

  /** Each element occurs at most once. */
  ghost predicate NoDuplicates(s: seq<Argument>)
  {
    forall x :: multiset(s)[x] <= 1
  }

  /** The arguments of one form, in order; raw words contribute nothing. */
  function FormArguments(form: seq<CommandComponent>): (r: seq<Argument>)
    ensures forall a :: a in r <==> Arg(a) in form
  {
    if form == [] then []
    else
      assert form == [form[0]] + form[1..];
      (if form[0].Arg? then [form[0].argument] else []) + FormArguments(form[1..])
  }

  /** `commands.flatMap { $0 }.compactMap { ... }`: the arguments of all forms, in order. */
  function CommandArguments(commands: seq<seq<CommandComponent>>): (r: seq<Argument>)
    ensures forall a :: a in r <==> exists i :: 0 <= i < |commands| && Arg(a) in commands[i]
  {
    if commands == [] then []
    else
      assert forall i :: 0 < i < |commands| ==> commands[i] == commands[1..][i - 1];
      FormArguments(commands[0]) + CommandArguments(commands[1..])
  }

  /** The first occurrence of every element, in order. */
  function Dedup(s: seq<Argument>): (r: seq<Argument>)
    ensures NoDuplicates(r)
    ensures forall a :: a in r <==> a in s
  {
    if s == [] then []
    else
      var prefix, last := s[..|s| - 1], s[|s| - 1];
      assert s == prefix + [last];
      var d := Dedup(prefix);
      if last in d then d else d + [last]
  }

  /** `Usage.arguments`: every argument component of every command form, once. */
  function ArgumentSet(u: Usage): (r: set<Argument>)
    ensures forall a :: a in r <==>
      exists i, j :: 0 <= i < |u.commands| && 0 <= j < |u.commands[i]| && u.commands[i][j] == Arg(a)
  {
    set a | a in CommandArguments(u.commands)
  }

  /** The argument set as a sequence: first appearances, in the order of the forms. The
      order in which Swift enumerates a `Set` is unspecified; this one is a choice. */
  function UniqueArguments(u: Usage): (r: seq<Argument>)
    ensures NoDuplicates(r)
    ensures forall a :: a in r <==> a in ArgumentSet(u)
  {
    Dedup(CommandArguments(u.commands))
  }

  function Max(a: nat, b: nat): nat
  {
    if a > b then a else b
  }

  /** The length of the longest verbose name, 0 for none. */
  function Widest(args: seq<Argument>): nat
  {
    if args == [] then 0 else Max(|HelpName(args[0])|, Widest(args[1..]))
  }

  /** `Widest` is the maximum: no verbose name is longer, and one (if any) is as long. */
  lemma {:induction false} WidestIsMaximum(args: seq<Argument>)
    ensures forall a :: a in args ==> |HelpName(a)| <= Widest(args)
    ensures args == [] ==> Widest(args) == 0
    ensures args != [] ==> exists a :: a in args && |HelpName(a)| == Widest(args)
  {
    if args != [] {
      WidestIsMaximum(args[1..]);
      assert Widest(args) == Max(|HelpName(args[0])|, Widest(args[1..]));
      forall a | a in args
        ensures |HelpName(a)| <= Widest(args)
      {
        var i :| 0 <= i < |args| && args[i] == a;
        if i > 0 {
          assert args[1..][i - 1] == a;
        }
      }
      if |HelpName(args[0])| <= Widest(args[1..]) {
        var b :| b in args[1..] && |HelpName(b)| == Widest(args[1..]);
        assert b in args;
      }
    }
  }

  /** The shared column width: no argument of the usage has a longer verbose name, and
      one of them (if any) has exactly this length. */
  function WidestArgument(u: Usage): (w: nat)
    ensures forall a :: a in ArgumentSet(u) ==> |HelpName(a)| <= w
    ensures ArgumentSet(u) == {} ==> w == 0
    ensures ArgumentSet(u) != {} ==> exists a :: a in ArgumentSet(u) && |HelpName(a)| == w
  {
    var args := UniqueArguments(u);
    WidestIsMaximum(args);
    assert ArgumentSet(u) != {} ==> args != [] by {
      if ArgumentSet(u) != {} {
        var a :| a in ArgumentSet(u);
        assert a in args;
      }
    }
    Widest(args)
  }

  /** The widest name of a sequence extended by one argument. */
  lemma {:induction false} WidestSnoc(s: seq<Argument>, x: Argument)
    ensures Widest(s + [x]) == Max(Widest(s), |HelpName(x)|)
  {
    if s != [] {
      assert (s + [x])[1..] == s[1..] + [x];
      WidestSnoc(s[1..], x);
    }
  }

  lemma WidestPrefix(s: seq<Argument>, i: nat)
    requires i < |s|
    ensures Widest(s[..i + 1]) == Max(Widest(s[..i]), |HelpName(s[i])|)
  {
    assert s[..i + 1] == s[..i] + [s[i]];
    WidestSnoc(s[..i], s[i]);
  }

  /** The `reduce(into: 0)` fold of `widestArgument`: the running maximum of the
      verbose-name lengths. */
  method ReduceWidest(arguments: seq<Argument>) returns (widest: nat)
    ensures widest == Widest(arguments)
  {
    widest := 0;
    var i := 0;
    while i < |arguments|
      invariant 0 <= i <= |arguments|
      invariant widest == Widest(arguments[..i])
    {
      WidestPrefix(arguments, i);
      widest := Max(widest, |HelpName(arguments[i])|);
      i := i + 1;
    }
    assert arguments[..i] == arguments;
  }

  // ---------------------------------------------------------------------------------
  // Sorting by verbose name

  /** `sortedArguments`: the argument set in non-decreasing verbose-name order. */
  function SortedArguments(u: Usage): (r: seq<Argument>)
    ensures SortedBy(HelpName, r) && NoDuplicates(r)
    ensures forall a :: a in r <==> a in ArgumentSet(u)
  {
    var r := SortBy(HelpName, UniqueArguments(u));
    assert forall a :: a in r <==> a in multiset(r);
    r
  }

  // ---------------------------------------------------------------------------------
  // Grouping by kind

  /** The elements of `s` of kind `k`, in their order. */
  function OfKind(s: seq<Argument>, k: Kind): (r: seq<Argument>)
    ensures forall a :: a in r <==> a in s && a.kind == k
  {
    if s == [] then []
    else
      assert s == s[..|s| - 1] + [s[|s| - 1]];
      OfKind(s[..|s| - 1], k) + (if s[|s| - 1].kind == k then [s[|s| - 1]] else [])
  }

  /** Filtering keeps each element of kind `k` as often as it occurs, and no other. */
  lemma {:induction false} OfKindCount(s: seq<Argument>, k: Kind)
    ensures forall a :: multiset(OfKind(s, k))[a] == if a.kind == k then multiset(s)[a] else 0
  {
    if s != [] {
      var prefix, last := s[..|s| - 1], s[|s| - 1];
      assert s == prefix + [last];
      OfKindCount(prefix, k);
      assert multiset(s) == multiset(prefix) + multiset{last};
    }
  }

  lemma {:induction false} OfKindSorted(s: seq<Argument>, k: Kind)
    requires SortedBy(HelpName, s)
    ensures SortedBy(HelpName, OfKind(s, k))
  {
    if s != [] {
      var prefix, last := s[..|s| - 1], s[|s| - 1];
      assert s == prefix + [last];
      assert SortedBy(HelpName, prefix);
      OfKindSorted(prefix, k);
      if last.kind == k {
        SortedPrefixExtend(HelpName, OfKind(prefix, k), prefix, last);
      }
    }
  }

  /** One step of the loop in `uniqueArgumentsByKind`: append the argument to its kind's
      list unless that list already holds it. */
  function AddByKind(m: map<Kind, seq<Argument>>, a: Argument): map<Kind, seq<Argument>>
  {
    var current := if a.kind in m then m[a.kind] else [];
    if a in current then m else m[a.kind := current + [a]]
  }

  /** The dictionary the loop has built after visiting `s`. */
  function GroupByKind(s: seq<Argument>): map<Kind, seq<Argument>>
  {
    if s == [] then map[] else AddByKind(GroupByKind(s[..|s| - 1]), s[|s| - 1])
  }

  lemma GroupByKindStep(s: seq<Argument>, i: nat)
    requires i < |s|
    ensures GroupByKind(s[..i + 1]) == AddByKind(GroupByKind(s[..i]), s[i])
  {
    assert s[..i + 1][..i] == s[..i];
  }

  /** Over a sequence without duplicates, a kind is a key exactly when some element has
      that kind, and its list is the elements of that kind in order. */
  lemma NoDuplicatesSnoc(prefix: seq<Argument>, last: Argument)
    requires NoDuplicates(prefix + [last])
    ensures NoDuplicates(prefix) && last !in prefix
  {
    assert multiset(prefix + [last]) == multiset(prefix) + multiset{last};
    assert multiset(prefix + [last])[last] <= 1;
    forall x
      ensures multiset(prefix)[x] <= 1
    {
      assert multiset(prefix)[x] <= multiset(prefix + [last])[x];
    }
  }

  /** One loop step keeps the dictionary equal to the per-kind filters. */
  lemma GroupStep(g: map<Kind, seq<Argument>>, prefix: seq<Argument>, last: Argument)
    requires forall k :: k in g <==> OfKind(prefix, k) != []
    requires forall k :: k in g ==> g[k] == OfKind(prefix, k)
    requires last !in prefix
    ensures forall k :: k in AddByKind(g, last) <==> OfKind(prefix + [last], k) != []
    ensures forall k :: k in AddByKind(g, last) ==> AddByKind(g, last)[k] == OfKind(prefix + [last], k)
  {
    var s := prefix + [last];
    assert s[..|s| - 1] == prefix;
    var current := if last.kind in g then g[last.kind] else [];
    assert current == OfKind(prefix, last.kind);
    var added := g[last.kind := current + [last]];
    assert AddByKind(g, last) == added;
    forall k
      ensures k in added <==> OfKind(s, k) != []
      ensures k in added ==> added[k] == OfKind(s, k)
    {
      OfKindSnoc(prefix, last, k);
    }
  }

  lemma OfKindSnoc(prefix: seq<Argument>, last: Argument, k: Kind)
    ensures OfKind(prefix + [last], k) == OfKind(prefix, k) + (if last.kind == k then [last] else [])
  {
    assert (prefix + [last])[..|prefix|] == prefix;
  }

  lemma {:induction false} GroupByKindIsOfKind(s: seq<Argument>)
    requires NoDuplicates(s)
    ensures forall k :: k in GroupByKind(s) <==> OfKind(s, k) != []
    ensures forall k :: k in GroupByKind(s) ==> GroupByKind(s)[k] == OfKind(s, k)
  {
    if s != [] {
      var prefix, last := s[..|s| - 1], s[|s| - 1];
      assert s == prefix + [last];
      NoDuplicatesSnoc(prefix, last);
      GroupByKindIsOfKind(prefix);
      GroupStep(GroupByKind(prefix), prefix, last);
    }
  }

  /** The per-kind lists of the source's `uniqueArgumentsByKind`: exactly the arguments of
      kind `k`, each once, in non-decreasing verbose-name order. */
  function ArgumentsOfKind(u: Usage, k: Kind): (r: seq<Argument>)
    ensures forall a :: a in r <==> a in ArgumentSet(u) && a.kind == k
    ensures NoDuplicates(r)
    ensures SortedBy(HelpName, r)
  {
    OfKindSorted(SortedArguments(u), k);
    OfKindCount(SortedArguments(u), k);
    OfKind(SortedArguments(u), k)
  }

  /** `uniqueArgumentsByKind`: a kind is a key exactly when the usage has an argument of
      that kind, and each key holds that kind's arguments sorted, without duplicates. */
  method UniqueArgumentsByKind(u: Usage) returns (byKind: map<Kind, seq<Argument>>)
    ensures forall k :: k in byKind <==> ArgumentsOfKind(u, k) != []
    ensures forall k :: (if k in byKind then byKind[k] else []) == ArgumentsOfKind(u, k)
  {
    var sortedArguments := SortedArguments(u);
    byKind := AppendByKind(sortedArguments);
    GroupedArguments(u);
  }

  /** The loop of `uniqueArgumentsByKind`: each argument is appended to its kind's list
      (the key is created on first use) unless that list already holds it. */
  method AppendByKind(sortedArguments: seq<Argument>) returns (byKind: map<Kind, seq<Argument>>)
    ensures byKind == GroupByKind(sortedArguments)
    ensures NoDuplicates(sortedArguments) ==>
      forall k :: (k in byKind <==> OfKind(sortedArguments, k) != []) &&
                  (k in byKind ==> byKind[k] == OfKind(sortedArguments, k))
  {
    byKind := map[];
    var i := 0;
    while i < |sortedArguments|
      invariant 0 <= i <= |sortedArguments|
      invariant byKind == GroupByKind(sortedArguments[..i])
    {
      var argument := sortedArguments[i];
      var current := if argument.kind in byKind then byKind[argument.kind] else [];
      if argument !in current {
        byKind := byKind[argument.kind := current + [argument]];
      }
      GroupByKindStep(sortedArguments, i);
      i := i + 1;
    }
    assert sortedArguments[..i] == sortedArguments;
    if NoDuplicates(sortedArguments) {
      GroupByKindIsOfKind(sortedArguments);
    }
  }

  /** What the loop of `uniqueArgumentsByKind` builds from the sorted argument set. */
  lemma GroupedArguments(u: Usage)
    ensures var byKind := GroupByKind(SortedArguments(u));
      (forall k :: k in byKind <==> ArgumentsOfKind(u, k) != []) &&
      (forall k :: (if k in byKind then byKind[k] else []) == ArgumentsOfKind(u, k))
  {
    GroupByKindIsOfKind(SortedArguments(u));
  }

  // ---------------------------------------------------------------------------------
  // The help text

  /** "OVERVIEW: <overview>" and a blank line, when there is an overview. */
  function OverviewSection(overview: Option<string>): (r: string)
    ensures overview.None? <==> r == ""
    ensures overview.Some? ==> r == "OVERVIEW: " + overview.value + "\n\n"
  {
    if overview.Some? then "OVERVIEW: " + overview.value + "\n\n" else ""
  }

  /** "SEE ALSO: " and the related commands joined by ", ", when there are any. */
  function SeeAlsoSection(seeAlso: Option<seq<string>>): (r: string)
    ensures r == "" <==> seeAlso.None? || seeAlso.value == []
    ensures seeAlso.Some? && seeAlso.value != [] ==> r == "SEE ALSO: " + Join(seeAlso.value, ", ") + "\n\n"
    ensures seeAlso.Some? && |seeAlso.value| == 1 ==> r == "SEE ALSO: " + seeAlso.value[0] + "\n\n"
  {
    if seeAlso.Some? && seeAlso.value != [] then "SEE ALSO: " + Join(seeAlso.value, ", ") + "\n\n"
    else ""
  }

  /** The lines of a USAGE section with several forms. */
  function IndentedForms(commands: seq<seq<CommandComponent>>): seq<string>
  {
    seq(|commands|, i requires 0 <= i < |commands| => Tab + FormHelp(commands[i]))
  }

  /** Nothing without forms; "USAGE: <form>" for one; "USAGE:" over one indented line per
      form for several. */
  function UsageSection(commands: seq<seq<CommandComponent>>): (r: string)
    ensures commands == [] <==> r == ""
    ensures |commands| == 1 ==> r == "USAGE: " + FormHelp(commands[0]) + "\n\n"
    ensures |commands| > 1 ==> r == Join(["USAGE:"] + IndentedForms(commands) + ["", ""], "\n")
  {
    if |commands| == 0 then ""
    else if |commands| == 1 then
      var line := "USAGE: " + FormHelp(commands[0]) + "\n\n";
      assert |line| >= 9;
      line
    else
      var block := "USAGE:\n" + Join(IndentedForms(commands), "\n") + "\n\n";
      JoinBlock("USAGE:", IndentedForms(commands));
      assert |block| >= 9;
      block
  }

  /** One entry line: a space, then the entry padded to the shared width. */
  function EntryLine(a: Argument, width: nat): string
  {
    " " + ArgumentHelp(a, Some(width))
  }

  /** An entry line spelled out: a space, the padded verbose name, the tab, then the
      description and default. */
  lemma EntryLineText(a: Argument, width: nat)
    ensures EntryLine(a, width) ==
      " " + PadTo(HelpName(a), width) + Tab + (a.description + DefaultSuffix(a.defaultValue))
  {
    var padded, rest := PadTo(HelpName(a), width), a.description + DefaultSuffix(a.defaultValue);
    assert ArgumentHelpName(a, Some(width)) == padded;
    assert ArgumentHelp(a, Some(width)) == padded + Tab + rest;
    Regroup(" ", padded, Tab, rest, "");
  }

  function EntryLines(args: seq<Argument>, width: nat): seq<string>
  {
    seq(|args|, i requires 0 <= i < |args| => EntryLine(args[i], width))
  }

  /** `appendArgumentSection`: the title line, one entry line per argument, a blank line. */
  function ArgumentSection(title: string, args: seq<Argument>, width: nat): string
  {
    title + ":\n" + Join(EntryLines(args, width), "\n") + "\n\n"
  }

  /** The positional arguments, when there are any. */
  function ArgumentsSection(u: Usage): (r: string)
    ensures r == "" <==> ArgumentsOfKind(u, ArgumentKind) == []
  {
    var arguments := ArgumentsOfKind(u, ArgumentKind);
    if arguments != [] then ArgumentSection("ARGUMENTS", arguments, WidestArgument(u)) else ""
  }

  /** The options and then the flags, when there are any. */
  function OptionsAndFlags(u: Usage): seq<Argument>
  {
    ArgumentsOfKind(u, OptionKind) + ArgumentsOfKind(u, FlagKind)
  }

  /** The OPTIONS section, when there are options or flags. */
  function OptionsSection(u: Usage): (r: string)
    ensures r == "" <==> OptionsAndFlags(u) == []
  {
    var optionsAndFlags := OptionsAndFlags(u);
    if optionsAndFlags != [] then ArgumentSection("OPTIONS", optionsAndFlags, WidestArgument(u)) else ""
  }

  lemma SectionsFromLists(u: Usage, arguments: seq<Argument>, optionsAndFlags: seq<Argument>, width: nat)
    requires arguments == ArgumentsOfKind(u, ArgumentKind) && width == WidestArgument(u)
    ensures ArgumentsSection(u) ==
      if arguments != [] then ArgumentSection("ARGUMENTS", arguments, width) else ""
    ensures optionsAndFlags == OptionsAndFlags(u) ==>
      OptionsSection(u) ==
        if optionsAndFlags != [] then ArgumentSection("OPTIONS", optionsAndFlags, width) else ""
  {
  }

  /** `Usage.help`: the sections in their fixed order. */
  function HelpText(u: Usage): string
  {
    OverviewSection(u.overview) + SeeAlsoSection(u.seeAlso) + UsageSection(u.commands)
      + ArgumentsSection(u) + OptionsSection(u)
  }

  /** `help`, built as the source builds it: appending each section in turn. */
  method Help(u: Usage) returns (help: string)
    ensures help == HelpText(u)
  {
    help := "";
    if u.overview.Some? {
      help := help + ("OVERVIEW: " + u.overview.value + "\n\n");
    }
    if u.seeAlso.Some? && u.seeAlso.value != [] {
      help := help + ("SEE ALSO: " + Join(u.seeAlso.value, ", ") + "\n\n");
    }
    assert help == OverviewSection(u.overview) + SeeAlsoSection(u.seeAlso);
    if |u.commands| == 1 {
      help := help + ("USAGE: " + FormHelp(u.commands[0]) + "\n\n");
    } else if |u.commands| > 1 {
      help := help + ("USAGE:\n" + Join(IndentedForms(u.commands), "\n") + "\n\n");
    }
    assert help == OverviewSection(u.overview) + SeeAlsoSection(u.seeAlso) + UsageSection(u.commands);
    help := AppendArgumentSections(help, u);
  }

  /** The rest of `help`: the ARGUMENTS and OPTIONS sections that the nested
      `appendArgumentSection` adds, drawn from `uniqueArgumentsByKind` and padded to
      `widestArgument`. */
  method AppendArgumentSections(prefix: string, u: Usage) returns (help: string)
    ensures help == prefix + ArgumentsSection(u) + OptionsSection(u)
  {
    var widestArgument := ReduceWidest(UniqueArguments(u));
    var byKind := UniqueArgumentsByKind(u);
    var arguments := if ArgumentKind in byKind then byKind[ArgumentKind] else [];
    var optionsAndFlags :=
      (if OptionKind in byKind then byKind[OptionKind] else [])
      + (if FlagKind in byKind then byKind[FlagKind] else []);
    SectionsFromLists(u, arguments, optionsAndFlags, widestArgument);
    help := AppendSection(prefix, "ARGUMENTS", arguments, widestArgument);
    help := AppendSection(help, "OPTIONS", optionsAndFlags, widestArgument);
  }

  method AppendSection(prefix: string, title: string, args: seq<Argument>, width: nat) returns (help: string)
    ensures help == prefix + (if args != [] then ArgumentSection(title, args, width) else "")
  {
    help := prefix;
    if args != [] {
      help := help + ArgumentSection(title, args, width);
    }
  }

  // ---------------------------------------------------------------------------------
  // Properties of the help text

  /** The ARGUMENTS section appears exactly when some form has a positional argument. */
  lemma ArgumentsSectionPresent(u: Usage)
    ensures ArgumentsSection(u) != "" <==>
      exists i, j :: 0 <= i < |u.commands| && 0 <= j < |u.commands[i]| &&
        u.commands[i][j].Arg? && u.commands[i][j].argument.kind == ArgumentKind
  {
    KindPresent(u, ArgumentKind);
  }

  /** Some argument of kind `k` is listed exactly when some form has one. */
  lemma KindPresent(u: Usage, k: Kind)
    ensures ArgumentsOfKind(u, k) != [] <==>
      exists i, j :: 0 <= i < |u.commands| && 0 <= j < |u.commands[i]| &&
        u.commands[i][j].Arg? && u.commands[i][j].argument.kind == k
  {
    var arguments := ArgumentsOfKind(u, k);
    if arguments != [] {
      assert arguments[0] in arguments;
      var i, j :| 0 <= i < |u.commands| && 0 <= j < |u.commands[i]| && u.commands[i][j] == Arg(arguments[0]);
      assert u.commands[i][j].argument.kind == k;
    } else {
      forall i, j | 0 <= i < |u.commands| && 0 <= j < |u.commands[i]| && u.commands[i][j].Arg?
        ensures u.commands[i][j].argument.kind != k
      {
        var a := u.commands[i][j].argument;
        assert u.commands[i][j] == Arg(a);
        assert a in ArgumentSet(u);
        assert a !in arguments;
      }
    }
  }


  /** The OPTIONS section appears exactly when some form has an option or a flag. */
  lemma OptionsSectionPresent(u: Usage)
    ensures OptionsSection(u) != "" <==>
      exists i, j :: 0 <= i < |u.commands| && 0 <= j < |u.commands[i]| &&
        u.commands[i][j].Arg? && u.commands[i][j].argument.kind != ArgumentKind
  {
    var options, flags := ArgumentsOfKind(u, OptionKind), ArgumentsOfKind(u, FlagKind);
    assert OptionsAndFlags(u) == options + flags;
    KindPresent(u, OptionKind);
    KindPresent(u, FlagKind);
    if options != [] {
      var i, j :| 0 <= i < |u.commands| && 0 <= j < |u.commands[i]| &&
        u.commands[i][j].Arg? && u.commands[i][j].argument.kind == OptionKind;
      assert u.commands[i][j].argument.kind != ArgumentKind;
    } else if flags != [] {
      var i, j :| 0 <= i < |u.commands| && 0 <= j < |u.commands[i]| &&
        u.commands[i][j].Arg? && u.commands[i][j].argument.kind == FlagKind;
      assert u.commands[i][j].argument.kind != ArgumentKind;
    } else {
      forall i, j | 0 <= i < |u.commands| && 0 <= j < |u.commands[i]| && u.commands[i][j].Arg?
        ensures u.commands[i][j].argument.kind == ArgumentKind
      {
        assert u.commands[i][j].argument.kind != OptionKind;
      }
    }
  }


  /** The help text is empty exactly when there is no overview, no related command and no
      command form. */
  lemma HelpTextEmpty(u: Usage)
    ensures HelpText(u) == "" <==>
      u.overview.None? && (u.seeAlso.None? || u.seeAlso.value == []) && u.commands == []
  {
    ArgumentsSectionPresent(u);
    OptionsSectionPresent(u);
  }

  /** A string that ends with a blank line. */
  predicate EndsWithBlankLine(s: string)
  {
    |s| >= 2 && s[|s| - 2..] == "\n\n"
  }

  /** Empty, or ending with a blank line: what every section of the help text is. */
  predicate BlankOrEnds(s: string)
  {
    s == "" || EndsWithBlankLine(s)
  }

  lemma AppendKeepsBlankLine(a: string, b: string)
    requires BlankOrEnds(a) && BlankOrEnds(b)
    ensures BlankOrEnds(a + b)
  {
    if b == "" {
      assert a + b == a;
    } else {
      assert (a + b)[|a + b| - 2..] == b[|b| - 2..];
    }
  }

  lemma SectionEnds(s: string, body: string)
    requires s == body + "\n\n"
    ensures EndsWithBlankLine(s)
  {
    assert s[|s| - 2..] == "\n\n";
  }

  lemma HeadSectionsEnd(u: Usage)
    ensures BlankOrEnds(OverviewSection(u.overview)) && BlankOrEnds(SeeAlsoSection(u.seeAlso))
    ensures BlankOrEnds(UsageSection(u.commands))
  {
    if u.overview.Some? {
      SectionEnds(OverviewSection(u.overview), "OVERVIEW: " + u.overview.value);
    }
    if u.seeAlso.Some? && u.seeAlso.value != [] {
      SectionEnds(SeeAlsoSection(u.seeAlso), "SEE ALSO: " + Join(u.seeAlso.value, ", "));
    }
    if |u.commands| == 1 {
      SectionEnds(UsageSection(u.commands), "USAGE: " + FormHelp(u.commands[0]));
    } else if |u.commands| > 1 {
      SectionEnds(UsageSection(u.commands), "USAGE:\n" + Join(IndentedForms(u.commands), "\n"));
    }
  }

  lemma ArgumentSectionEnds(title: string, args: seq<Argument>, width: nat)
    ensures EndsWithBlankLine(ArgumentSection(title, args, width))
  {
    SectionEnds(ArgumentSection(title, args, width), title + ":\n" + Join(EntryLines(args, width), "\n"));
  }

  lemma ListSectionsEnd(u: Usage)
    ensures BlankOrEnds(ArgumentsSection(u)) && BlankOrEnds(OptionsSection(u))
  {
    ArgumentSectionEnds("ARGUMENTS", ArgumentsOfKind(u, ArgumentKind), WidestArgument(u));
    ArgumentSectionEnds("OPTIONS", OptionsAndFlags(u), WidestArgument(u));
  }

  /** Every section ends with a blank line, so a non-empty help text does too. */
  lemma HelpTextEndsWithBlankLine(u: Usage)
    requires HelpText(u) != ""
    ensures EndsWithBlankLine(HelpText(u))
  {
    var o, s, g := OverviewSection(u.overview), SeeAlsoSection(u.seeAlso), UsageSection(u.commands);
    var a, p := ArgumentsSection(u), OptionsSection(u);
    HeadSectionsEnd(u);
    ListSectionsEnd(u);
    AppendKeepsBlankLine(o, s);
    AppendKeepsBlankLine(o + s, g);
    AppendKeepsBlankLine(o + s + g, a);
    AppendKeepsBlankLine(o + s + g + a, p);
  }


  /** Options followed by flags, each list free of duplicates. */
  lemma OptionsThenFlags(options: seq<Argument>, flags: seq<Argument>)
    requires forall a :: a in options ==> a.kind == OptionKind
    requires forall a :: a in flags ==> a.kind == FlagKind
    requires NoDuplicates(options) && NoDuplicates(flags)
    ensures var r := options + flags;
      NoDuplicates(r) &&
      forall i, j :: 0 <= i < j < |r| && r[j].kind == OptionKind ==> r[i].kind == OptionKind
  {
    var r: seq<Argument> := options + flags;
    assert multiset(r) == multiset(options) + multiset(flags);
    forall x: Argument
      ensures multiset(r)[x] <= 1
    {
      if x.kind == OptionKind {
        assert x !in flags;
      } else {
        assert x !in options;
      }
    }
    forall k | |options| <= k < |r|
      ensures r[k].kind == FlagKind
    {
      assert r[k] == flags[k - |options|] && r[k] in flags;
    }
    forall i, j | 0 <= i < j < |r| && r[j].kind == OptionKind
      ensures r[i].kind == OptionKind
    {
      assert r[i] == options[i] && options[i] in options;
    }
  }

  /** The OPTIONS list holds every option and every flag of the usage once, all options
      before all flags. */
  lemma OptionsAndFlagsOrder(u: Usage)
    ensures var r := OptionsAndFlags(u);
      (forall a :: a in r <==> a in ArgumentSet(u) && a.kind != ArgumentKind) &&
      NoDuplicates(r) &&
      forall i, j :: 0 <= i < j < |r| && r[j].kind == OptionKind ==> r[i].kind == OptionKind
  {
    OptionsThenFlags(ArgumentsOfKind(u, OptionKind), ArgumentsOfKind(u, FlagKind));
  }

  /** No newline in anything an argument's entry shows. */
  predicate SingleLine(a: Argument)
  {
    '\n' !in HelpName(a) && '\n' !in a.description && '\n' !in DefaultSuffix(a.defaultValue)
  }

  lemma EntryLineSingle(a: Argument, width: nat)
    requires SingleLine(a)
    ensures '\n' !in EntryLine(a, width)
  {
    PadToKeepsOut(HelpName(a), width, '\n');
    EntryLineText(a, width);
    TabIsBlank();
  }

  lemma EntryLinesSingle(args: seq<Argument>, width: nat)
    requires forall a :: a in args ==> SingleLine(a)
    ensures forall i :: 0 <= i < |EntryLines(args, width)| ==> '\n' !in EntryLines(args, width)[i]
  {
    forall i | 0 <= i < |args|
      ensures '\n' !in EntryLines(args, width)[i]
    {
      assert args[i] in args;
      EntryLineSingle(args[i], width);
    }
  }

  /** A section over arguments whose entries have no newline is exactly its title line,
      one line per entry and a blank line. */
  lemma SectionLines(title: string, args: seq<Argument>, width: nat)
    requires args != [] && '\n' !in title
    requires forall a :: a in args ==> SingleLine(a)
    ensures Split(ArgumentSection(title, args, width), '\n') == [title + ":"] + EntryLines(args, width) + ["", ""]
  {
    SectionShape(title, args, width);
    EntryLinesSingle(args, width);
    BlockLines(title + ":", EntryLines(args, width));
  }

  lemma SectionShape(title: string, args: seq<Argument>, width: nat)
    ensures ArgumentSection(title, args, width) ==
      (title + ":") + "\n" + Join(EntryLines(args, width), "\n") + "\n\n"
  {
    assert ":\n" == ":" + "\n";
  }

  /** An entry padded to a width no verbose name exceeds: a space, the verbose name,
      blanks up to the width plus the tab, then the description and default. */
  lemma EntryLineColumns(a: Argument, w: nat)
    requires |HelpName(a)| <= w
    ensures var line := EntryLine(a, w);
      line[..1 + |HelpName(a)|] == " " + HelpName(a) &&
      (forall i :: 1 + |HelpName(a)| <= i < 1 + w + |Tab| ==> line[i] == ' ') &&
      line[1 + w + |Tab|..] == a.description + DefaultSuffix(a.defaultValue)
  {
    EntryLineText(a, w);
    TabIsBlank();
    ColumnLine(" ", HelpName(a), w, Tab, a.description + DefaultSuffix(a.defaultValue));
  }


  /** Every entry of the help text is aligned to the same column, `widestArgument` plus
      the tab. */
  lemma EntriesAligned(u: Usage, a: Argument)
    requires a in ArgumentSet(u)
    ensures var w, line := WidestArgument(u), EntryLine(a, WidestArgument(u));
      line[..1 + |HelpName(a)|] == " " + HelpName(a) &&
      (forall i :: 1 + |HelpName(a)| <= i < 1 + w + |Tab| ==> line[i] == ' ') &&
      line[1 + w + |Tab|..] == a.description + DefaultSuffix(a.defaultValue)
  {
    EntryLineColumns(a, WidestArgument(u));
  }
}
