# swift-arguments, modelled in Dafny

This project models the core of the `Arguments` Swift library. The library has two parts:

- **The token consumer.** It reads a program's command-line words through `Arguments`:
  - `consumeOption(named:)` takes the word that follows an option name;
  - `consumeArgument()` takes the first word;
  - `consumeFlag(named:)` reports whether a flag is present and removes it.

  A failed call throws an `ArgumentError`. Its `errorDescription` prints the `Reason` and, when a usage is attached, the usage text. The typed variants in `ExpressibleByArgument.swift` run the untyped call and then convert the word.
- **The usage renderer.** `Usage` describes the accepted command forms, made of raw words and argument components (options, positional arguments, flags). Its `help` renders, in this order:
  - an OVERVIEW block;
  - a SEE ALSO block;
  - the compact USAGE line or lines;
  - ARGUMENTS and OPTIONS sections. Their entries are deduplicated, grouped by kind, sorted by verbose name, and padded to the widest verbose name plus a four-space tab.

Modules:

- `Wrappers`: `Option`.
- `Text`: the string operations the renderer uses. These are `joined(separator:)`, `padding(toLength:withPad:startingAt:)`, and the order that `<` gives strings. It also defines splitting into lines. The renderer never splits. `Split` is the inverse of the newline join, and lemmas use it to state the line structure of a rendered section.
- `Sorting`: sorting by a string key.
- `Usage`: `Usage.swift`.
- `Arguments`: `Arguments.swift`. The Swift struct with `mutating` methods becomes a class with a `modifies` frame.
- `ExpressibleByArgument`: the typed wrappers.
- `UsageTests`: the usage from the repository's own test, and its rendered help text.

The renderer is pure and is modelled as functions. Three parts of it keep the imperative form of the source:
- the `for` loop of `uniqueArgumentsByKind`;
- the `reduce` of `widestArgument`;
- the appending in `help`.

Each is a method proved equal to a specification function, and the properties are lemmas about those functions.

The consumer's methods state their whole new word list, with the failure cases leaving it unchanged. Beside that, lemmas prove two things:
- after every call, and after any run of calls, the words left are a subsequence of the old list;
- a repeated option hands out its values in order.

The repository's test (Tests/ArgumentsTests/UsageTests.swift:31-33) expects wrapped descriptions, but `Usage.help` does not wrap. The wrapping must come from the usage's `description`, which Usage.swift does not define. The model renders what `help` renders.

## Model

| member | source | states |
|---|---|---|
| Text.PadTo | Sources/Arguments/Usage.swift:121 | the result has exactly the requested length: the name cut there when longer, the name followed by blanks when shorter |
| Text.PadToKeepsOut | Sources/Arguments/Usage.swift:121 | padding adds only spaces, so a character the name lacks (a newline) stays absent |
| Text.ColumnLine | Sources/Arguments/Usage.swift:120-128 | in lead + padded name + blanks + rest, the name sits whole after the lead, blanks run to the column, and the rest starts there |
| Text.Join | Sources/Arguments/Usage.swift:182 | joining no parts gives the empty string; joining one part gives that part |
| Text.JoinAppend | Sources/Arguments/Usage.swift:203 | joining two non-empty runs of parts puts exactly one separator between their joins |
| Text.JoinBlock | Sources/Arguments/Usage.swift:201-206 | a header, lines and two empty lines joined with newlines is header, newline, the joined lines, and a blank line |
| Text.Split | Sources/Arguments/Usage.swift:214 | splitting gives at least one piece, and no piece contains the separator |
| Text.SplitPrefix | Sources/Arguments/Usage.swift:214 | a string free of the separator splits into itself; a separator-free prefix followed by the separator becomes the first piece |
| Text.SplitJoin | Sources/Arguments/Usage.swift:214 | lines free of the separator, joined with it, split back into exactly those lines: split inverts join |
| Text.BlockLines | Sources/Arguments/Usage.swift:211-217 | a header, newline-free lines and the closing blank line split into the header, those lines, and two empty lines |
| Text.LessIrreflexive | Sources/Arguments/Usage.swift:160 | no verbose name sorts before itself |
| Text.LessAsymmetric | Sources/Arguments/Usage.swift:160 | two names are never each before the other |
| Text.LessTransitive | Sources/Arguments/Usage.swift:160 | the name order is transitive |
| Text.LessTotal | Sources/Arguments/Usage.swift:160 | any two different names are ordered one way or the other |
| Text.NotLessTransitive | Sources/Arguments/Usage.swift:160 | "not after" is transitive, so sorting by it is well defined |
| Text.Less | Sources/Arguments/Usage.swift:160 | lexicographic order on character codes, which is Swift's `<` on ASCII strings; the lemmas above prove it a strict total order |
| Sorting.InsertBy | Sources/Arguments/Usage.swift:160 | inserting into a sorted list keeps it sorted and adds exactly that element |
| Sorting.SortBy | Sources/Arguments/Usage.swift:160 | the result is in non-decreasing key order and is a permutation of the input |
| Sorting.SortedPrefixExtend | Sources/Arguments/Usage.swift:161-165 | elements kept in order from a sorted list, followed by a later element, are still sorted |
| Usage.NameLiteral | Sources/Arguments/Usage.swift:42-44 | a string literal used as a name is the long spelling, printed as "--" and the literal |
| Usage.NameText | Sources/Arguments/Usage.swift:46-55 | the long spelling whenever there is one, else the short one |
| Usage.NameCommandHelp | Sources/Arguments/Usage.swift:57-66 | the preferred spelling behind "-" for a short-only name and "--" otherwise |
| Usage.NameArgumentHelp | Sources/Arguments/Usage.swift:68-77 | a name with both spellings shows "-short, " before its compact form; any other name shows only the compact form |
| Usage.Placeholder | Sources/Arguments/Usage.swift:113 | the " <name>" value placeholder, non-empty exactly for options |
| Usage.CommandHelp | Sources/Arguments/Usage.swift:96-107 | the compact form with the " <name>" placeholder for options; bracketed exactly when not required, so the first character is '[' iff the argument is optional |
| Usage.HelpName | Sources/Arguments/Usage.swift:109-118 | the unpadded verbose name, which is also the sort key; HelpNameForms states its forms |
| Usage.HelpNameForms | Sources/Arguments/Usage.swift:109-118 | the verbose name is the name's argument help plus the placeholder; for a one-spelling required argument it equals the compact form |
| Usage.ArgumentHelpName | Sources/Arguments/Usage.swift:109-125 | without padding, the verbose name; with padding, exactly that many characters, keeping the whole name and blanks after it when it fits |
| Usage.DefaultSuffix | Sources/Arguments/Usage.swift:130-131 | the " (default: v)" suffix, empty exactly when there is no default |
| Usage.ArgumentHelp | Sources/Arguments/Usage.swift:127-135 | the padded name, then the tab, then the description followed by " (default: v)" when there is a default |
| Usage.OptionComponent | Sources/Arguments/Usage.swift:10-12 | an option component carrying exactly the given name, requiredness, default and description |
| Usage.ArgumentComponent | Sources/Arguments/Usage.swift:14-16 | a positional argument component carrying exactly the given fields |
| Usage.FlagComponent | Sources/Arguments/Usage.swift:18-20 | a flag component that is never required, has no default, and always shows bracketed |
| Usage.ComponentLiteral | Sources/Arguments/Usage.swift:22-24 | a string literal is a raw word whose help is the literal |
| Usage.ComponentHelp | Sources/Arguments/Usage.swift:26-33 | a raw word shows as written, an argument in its compact form |
| Usage.FormHelp | Sources/Arguments/Usage.swift:196 | a form's line: empty for no components, a lone component's help unchanged; FormHelpAppend gives the single space between neighbours |
| Usage.FormHelpAppend | Sources/Arguments/Usage.swift:196 | the line of two non-empty runs of components is their two lines with one space between them, so every pair of neighbouring components is separated by a single space |
| Usage.IndentedForms | Sources/Arguments/Usage.swift:203 | one tab-indented line per command form; UsageSection states the block they make |
| Usage.FormArguments | Sources/Arguments/Usage.swift:149-154 | exactly the arguments that occur as components of the form |
| Usage.CommandArguments | Sources/Arguments/Usage.swift:149-154 | exactly the arguments occurring in some command form |
| Usage.Dedup | Sources/Arguments/Usage.swift:155 | no duplicates, and the same members as the input |
| Usage.ArgumentSet | Sources/Arguments/Usage.swift:148-156 | an argument is in the set iff it is a component of some command form |
| Usage.UniqueArguments | Sources/Arguments/Usage.swift:148-156 | an enumeration of the set: no duplicates, same members |
| Usage.Widest | Sources/Arguments/Usage.swift:209 | the fold of the maximum over verbose-name lengths, starting from 0; WidestIsMaximum proves it is the maximum |
| Usage.WidestIsMaximum | Sources/Arguments/Usage.swift:209 | no verbose name is longer than the fold's result, some name reaches it, and it is 0 when there are no arguments |
| Usage.WidestSnoc | Sources/Arguments/Usage.swift:209 | extending the list by one argument takes the maximum with that argument's name length |
| Usage.ReduceWidest | Sources/Arguments/Usage.swift:209 | the running-maximum loop computes exactly the fold specified by Widest |
| Usage.WidestArgument | Sources/Arguments/Usage.swift:209 | the shared column width bounds every verbose name in the set, is reached by one of them, and is 0 for none |
| Usage.SortedArguments | Sources/Arguments/Usage.swift:160 | the set's members, each once, in non-decreasing verbose-name order |
| Usage.OfKind | Sources/Arguments/Usage.swift:161-165 | exactly the elements of the given kind |
| Usage.OfKindCount | Sources/Arguments/Usage.swift:161-165 | filtering by kind keeps each element of that kind exactly as often as it occurs, and no other |
| Usage.OfKindSorted | Sources/Arguments/Usage.swift:160-165 | filtering a sorted list by kind leaves it sorted |
| Usage.OfKindSnoc | Sources/Arguments/Usage.swift:161-165 | the kind filter of a list extended by one element is the old filter extended by that element when it has the kind |
| Usage.AddByKind | Sources/Arguments/Usage.swift:162-163 | one loop step: the argument is appended to its kind's list unless the list already holds it; GroupStep states what the step preserves |
| Usage.GroupByKind | Sources/Arguments/Usage.swift:159-165 | the dictionary the loop has built after visiting a prefix; GroupByKindIsOfKind characterises it |
| Usage.GroupByKindStep | Sources/Arguments/Usage.swift:161-165 | one more loop step applies one more dictionary update |
| Usage.NoDuplicatesSnoc | Sources/Arguments/Usage.swift:162 | in a duplicate-free list the last element does not occur before it |
| Usage.GroupStep | Sources/Arguments/Usage.swift:162-163 | one update with a new argument keeps each key's list equal to the kind filter of the visited prefix |
| Usage.GroupByKindIsOfKind | Sources/Arguments/Usage.swift:158-167 | over a duplicate-free list, a kind is a key iff some element has it, and its list is those elements in order |
| Usage.AppendByKind | Sources/Arguments/Usage.swift:161-165 | the loop builds the dictionary specified by GroupByKind, and so the per-kind filters of its input |
| Usage.UniqueArgumentsByKind | Sources/Arguments/Usage.swift:158-167 | a kind is a key iff the usage has an argument of that kind; each list is that kind's arguments, sorted and without duplicates |
| Usage.GroupedArguments | Sources/Arguments/Usage.swift:158-167 | the dictionary built from the sorted set agrees with the per-kind lists |
| Usage.ArgumentsOfKind | Sources/Arguments/Usage.swift:158-167 | exactly the set's arguments of the kind, each once, sorted by verbose name |
| Usage.KindPresent | Sources/Arguments/Usage.swift:158-167 | a kind has a non-empty list iff some command form holds an argument of that kind |
| Usage.OverviewSection | Sources/Arguments/Usage.swift:172-178 | the overview block is empty iff there is no overview, and is followed by a blank line otherwise |
| Usage.SeeAlsoSection | Sources/Arguments/Usage.swift:180-186 | the SEE ALSO block is empty iff the list is missing or empty; otherwise it is "SEE ALSO: ", the pages joined with ", ", and a blank line |
| Usage.UsageSection | Sources/Arguments/Usage.swift:191-207 | empty iff there are no forms; one form goes on the USAGE line itself; several forms go one per tab-indented line under "USAGE:" |
| Usage.EntryLine | Sources/Arguments/Usage.swift:214 | one entry: a space, then the argument help padded to the width; EntryLineText and EntryLineColumns spell it out |
| Usage.EntryLines | Sources/Arguments/Usage.swift:214 | one entry line per argument, in list order |
| Usage.ArgumentSection | Sources/Arguments/Usage.swift:211-218 | the title and ":", a newline, the entries joined with newlines, and a blank line; SectionLines states its line structure |
| Usage.ArgumentsSection | Sources/Arguments/Usage.swift:220-222 | the ARGUMENTS section, empty exactly when there is no positional argument |
| Usage.OptionsAndFlags | Sources/Arguments/Usage.swift:224 | the options followed by the flags; OptionsAndFlagsOrder states its members and order |
| Usage.OptionsSection | Sources/Arguments/Usage.swift:224-227 | the OPTIONS section, empty exactly when there is no option and no flag |
| Usage.EntryLineText | Sources/Arguments/Usage.swift:214 | an entry is a space, the name padded to the width, the tab, then the description and default |
| Usage.SectionsFromLists | Sources/Arguments/Usage.swift:220-227 | the ARGUMENTS section is drawn from the positional list, and the OPTIONS section from options followed by flags; each is empty when its list is |
| Usage.HelpText | Sources/Arguments/Usage.swift:169-230 | the overview, see-also, usage, arguments and options sections, concatenated in that order; Help is proved to build it |
| Usage.Help | Sources/Arguments/Usage.swift:169-230 | the appends of `help` build exactly the overview, see-also, usage, arguments and options sections, in that order |
| Usage.AppendArgumentSections | Sources/Arguments/Usage.swift:209-229 | with the loop-computed width and the loop-built dictionary, the appends add exactly the ARGUMENTS then OPTIONS sections |
| Usage.AppendSection | Sources/Arguments/Usage.swift:211-218 | a section is appended only for a non-empty list |
| Usage.ArgumentsSectionPresent | Sources/Arguments/Usage.swift:220-222 | the ARGUMENTS section appears iff some command form has a positional argument |
| Usage.OptionsSectionPresent | Sources/Arguments/Usage.swift:224-227 | the OPTIONS section appears iff some command form has an option or a flag |
| Usage.HelpTextEmpty | Sources/Arguments/Usage.swift:169-230 | the help text is empty iff there is no overview, no non-empty see-also list, and no command form |
| Usage.AppendKeepsBlankLine | Sources/Arguments/Usage.swift:169-230 | appending a section that is empty or ends in a blank line keeps the text empty or ending in a blank line |
| Usage.HeadSectionsEnd | Sources/Arguments/Usage.swift:172-207 | the overview, see-also and usage blocks are each empty or end with a blank line |
| Usage.ArgumentSectionEnds | Sources/Arguments/Usage.swift:211-218 | every argument section ends with a blank line |
| Usage.HelpTextEndsWithBlankLine | Sources/Arguments/Usage.swift:169-230 | a non-empty help text ends with a blank line |
| Usage.OptionsThenFlags | Sources/Arguments/Usage.swift:224 | concatenating the option and flag lists produces no duplicates, and no option comes after a flag |
| Usage.OptionsAndFlagsOrder | Sources/Arguments/Usage.swift:224 | the OPTIONS list holds exactly the set's non-positional arguments, each once, with options before flags |
| Usage.EntryLineSingle | Sources/Arguments/Usage.swift:214 | an entry built from newline-free name, description and default holds no newline |
| Usage.EntryLinesSingle | Sources/Arguments/Usage.swift:214 | no entry of such a list holds a newline |
| Usage.SectionLines | Sources/Arguments/Usage.swift:211-218 | a section is exactly its title line, one line per entry, and a blank line |
| Usage.EntryLineColumns | Sources/Arguments/Usage.swift:214 | an entry padded to a width its name fits in shows the whole name, blanks up to width plus tab, then the description |
| Usage.EntriesAligned | Sources/Arguments/Usage.swift:209-214 | every entry's description starts at the same column, widestArgument plus the tab |
| UsageTests.ExampleComponentHelps | Tests/ArgumentsTests/UsageTests.swift:9-17 | the compact forms of the test's components are command, [--something], [--another <another>], literal, [--flag] |
| UsageTests.ExampleUsageLine | Tests/ArgumentsTests/UsageTests.swift:25 | the test's USAGE line, with brackets around every optional component |
| UsageTests.ExampleArgumentSet | Tests/ArgumentsTests/UsageTests.swift:6-18 | the test usage has exactly three arguments |
| UsageTests.ExampleArguments | Tests/ArgumentsTests/UsageTests.swift:27-28 | its only positional argument is "something" |
| UsageTests.ExampleOptions | Tests/ArgumentsTests/UsageTests.swift:30-31 | its only option is "another" |
| UsageTests.ExampleFlags | Tests/ArgumentsTests/UsageTests.swift:34 | its only flag is "flag" |
| UsageTests.SomethingName | Tests/ArgumentsTests/UsageTests.swift:28 | the verbose name "-s, --something" |
| UsageTests.AnotherName | Tests/ArgumentsTests/UsageTests.swift:31 | the verbose name "--another <another>" |
| UsageTests.FlagName | Tests/ArgumentsTests/UsageTests.swift:34 | the verbose name "--flag" |
| UsageTests.WidthOfThree | Tests/ArgumentsTests/UsageTests.swift:28-34 | any usage with these three arguments has column width 19 |
| UsageTests.ExampleWidth | Tests/ArgumentsTests/UsageTests.swift:28-34 | the test's column width is 19, the length of "--another <another>" |
| UsageTests.SomethingEntry | Tests/ArgumentsTests/UsageTests.swift:28 | the ARGUMENTS entry: name padded to 19, tab, description |
| UsageTests.AnotherEntry | Tests/ArgumentsTests/UsageTests.swift:31-33 | the option's entry with its default after the description, unwrapped |
| UsageTests.FlagEntry | Tests/ArgumentsTests/UsageTests.swift:34 | the flag's entry, aligned to the same column |
| UsageTests.ExampleOverview | Tests/ArgumentsTests/UsageTests.swift:21-22 | the OVERVIEW block |
| UsageTests.ExampleSeeAlso | Tests/ArgumentsTests/UsageTests.swift:23-24 | the SEE ALSO block, comma-joined |
| UsageTests.ExampleArgumentsSection | Tests/ArgumentsTests/UsageTests.swift:27-29 | the ARGUMENTS section with its single entry |
| UsageTests.ExampleOptionsSection | Tests/ArgumentsTests/UsageTests.swift:30-35 | the OPTIONS section: the option, then the flag |
| UsageTests.ExampleHelp | Tests/ArgumentsTests/UsageTests.swift:20-36 | the whole help text of the test usage, section by section, descriptions unwrapped |
| Arguments.ReasonMessage | Sources/Arguments/Arguments.swift:62-74 | a missing option or argument gives a message starting "Missing expected "; a failed conversion gives one starting "Could not convert "; every message ends with a full stop |
| Arguments.ErrorDescription | Sources/Arguments/Arguments.swift:60-83 | the message comes first; with no usage it is the whole description, with a usage the usage text follows directly |
| Arguments.MessagesDistinct | Sources/Arguments/Arguments.swift:62-74 | reasons of different kinds never give the same message |
| Arguments.MissingMarks | Sources/Arguments/Arguments.swift:63-70 | a missing-value message starts with 'M', and its 18th character tells option from argument |
| Arguments.CouldMarks | Sources/Arguments/Arguments.swift:66-73 | a conversion message starts with 'C', and its 19th character tells option from argument |
| Arguments.MissingOptionNamed | Sources/Arguments/Arguments.swift:63-64 | the missing-option message determines the option name |
| Arguments.FirstIndex | Sources/Arguments/Arguments.swift:13 | None iff the word does not occur; otherwise an in-range position holding the word, with no earlier occurrence |
| Arguments.FirstIndexAt | Sources/Arguments/Arguments.swift:13 | a position holding the word with none before it is the first index |
| Arguments.SubsequenceReflexive | Sources/Arguments/Arguments.swift:36-38 | a list is a subsequence of itself |
| Arguments.SuffixIsSubsequence | Sources/Arguments/Arguments.swift:32 | dropping leading words leaves a subsequence |
| Arguments.RemoveRangeIsSubsequence | Sources/Arguments/Arguments.swift:23 | removing a contiguous range keeps the other words in order |
| Arguments.SubsequenceTransitive | Sources/Arguments/Arguments.swift:23 | a subsequence of a subsequence is a subsequence: deletions made by two calls keep the order of the original |
| Arguments.NextOccurrence | Sources/Arguments/Arguments.swift:12-25 | after an option and its value are removed, the next lookup finds the next occurrence, two places earlier |
| Arguments.Arguments.constructor | Sources/Arguments/Arguments.swift:7-10 | the consumer holds exactly the given words and usage; the usage defaults to none |
| Arguments.Arguments.ConsumeOption | Sources/Arguments/Arguments.swift:12-25 | a missing name, or a name that is the last word, fails with missingOption and removes nothing; otherwise returns the next word and removes both words; the words left are always a subsequence of the old ones |
| Arguments.Arguments.ConsumeArgument | Sources/Arguments/Arguments.swift:27-33 | no words left fails with missingArgument; otherwise returns and removes the first word; the words left are always a subsequence of the old ones |
| Arguments.Arguments.ConsumeFlag | Sources/Arguments/Arguments.swift:35-42 | true iff the name occurs; then exactly its first occurrence is removed; never fails |
| Arguments.RepeatedOption | Sources/Arguments/Arguments.swift:12-25 | an option given twice yields its values in order and leaves no words |
| Arguments.ConsumeAll | Sources/Arguments/Arguments.swift:12-42 | any run of consumeOption, consumeArgument and consumeFlag calls, failing or not, leaves the words not yet consumed in their original relative order, and never adds a word |
| ExpressibleByArgument.ConsumeOptionAs | Sources/Arguments/ExpressibleByArgument.swift:6-12 | the untyped call's failure is passed on with nothing removed; on success both words are removed and the result is the converted value or invalidOption(name, raw value, type) |
| ExpressibleByArgument.ConsumeArgumentAs | Sources/Arguments/ExpressibleByArgument.swift:14-20 | no word left fails with missingArgument; otherwise the first word is removed and the result is the converted value or invalidArgument(raw value, type) |

## Left out

- Word wrapping of long descriptions is not modelled, because `Usage.help` does not wrap. The wrapped layout that the repository's test expects comes from the usage's `description`, which Usage.swift does not define.
- The test also expects the text to end with one newline. `help` ends its last section with a blank line, and the model follows `help`.
- UsageTests.AnotherEntry: states the option's entry as one unwrapped line; the test's expected text breaks it over three lines.
- UsageTests.ExampleHelp: states the text `help` produces, unwrapped and ending in a blank line, not the `description` string the test compares.
- The usage's `description` is not defined in Usage.swift. So `ErrorDescription` takes the function that prints a usage as its parameter `describe`.
- `ArgumentError.description` is not modelled. It prints the reason through Swift's default enum rendering, which is compiler-generated.
- The bridge of `LocalizedError` to `errorDescription` is a Foundation behaviour and is not modelled.
- The `CommandLine.arguments` default of `init` is process I/O, so the words are always passed explicitly. As in the source, nothing skips the program name that the process list starts with.
- The iteration order of Swift's `Set`, and the order of `sorted`, are unspecified or unstable. The model fixes one order: first appearances, then a stable insertion sort. Every stated property holds whatever order Swift picks, except the fixed order inside a run of equal verbose names.
- `Set` deduplication uses `Hashable`. The model deduplicates by datatype equality on all five fields, which is what the synthesized conformance compares.
- Swift counts a `String` in grapheme clusters, compares strings by Unicode order, and pads through NSString's UTF-16 units. The model counts and compares characters, which agrees for ASCII text.
- The padding length is an `Int?` in Swift. The renderer only ever passes `widestArgument`, which is never negative, so the model uses `nat`.
- The `ExpressibleByArgument` protocol and its conformances. A type's `init?(argument:)` becomes the conversion `convert: string -> Option<T>`, and the printed metatype in the error becomes the string `expectedType`.
- `Package.swift` is a build manifest, with nothing to model.
