/** The token consumer and its errors (Sources/Arguments/Arguments.swift): a destructive
    cursor over the command-line words, which hands out options, positional arguments and
    flags and removes what it hands out. */
module Arguments {
  import opened Wrappers
  import Usage

  // ---------------------------------------------------------------------------------
  // Errors

  /** `ArgumentError.Reason`. The expected type of a failed conversion is carried as the
      name the error message prints for it. */
  datatype Reason =
    | MissingOption(name: string)
    | InvalidOption(name: string, value: string, expectedType: string)
    | MissingArgument
    | InvalidArgument(value: string, expectedType: string)

  /** `ArgumentError`: why consuming failed, and the usage of the consumer, if it has one. */
  datatype ArgumentError = ArgumentError(reason: Reason, usage: Option<Usage.Usage>)

  /** What a throwing consume call gives back: its value, or the error it throws. */
  datatype Result<T> = Ok(value: T) | Err(error: ArgumentError)

  /** The message `errorDescription` selects for each reason. */
  function ReasonMessage(reason: Reason): (m: string)
    ensures reason.MissingOption? || reason.MissingArgument? ==> "Missing expected " <= m
    ensures reason.InvalidOption? || reason.InvalidArgument? ==> "Could not convert " <= m
    ensures |m| > 0 && m[|m| - 1] == '.'
  {
    match reason
    case MissingOption(name) => "Missing expected " + ("option '" + name + "'.")
    case InvalidOption(name, value, expectedType) =>
      "Could not convert " + ("option '" + name + "' value '" + value + "' to expected type: " + expectedType + ".")
    case MissingArgument => "Missing expected " + "argument."
    case InvalidArgument(value, expectedType) =>
      "Could not convert " + ("argument value '" + value + "' to expected type: " + expectedType + ".")
  }

  /** `errorDescription`: the reason's message, followed directly (no separator) by the
      usage text when the error carries a usage. How a usage is printed is `describe`. */
  function ErrorDescription(e: ArgumentError, describe: Usage.Usage -> string): (r: string)
    ensures |r| >= |ReasonMessage(e.reason)| && r[..|ReasonMessage(e.reason)|] == ReasonMessage(e.reason)
    ensures e.usage.None? ==> r == ReasonMessage(e.reason)
    ensures e.usage.Some? ==> r[|ReasonMessage(e.reason)|..] == describe(e.usage.value)
  {
    var description := ReasonMessage(e.reason);
    if e.usage.Some? then description + describe(e.usage.value) else description
  }

  /** Messages of different reasons never coincide: the kind of failure can be read off
      the message. */
  lemma {:induction false} MessagesDistinct(a: Reason, b: Reason)
    requires a.MissingOption? != b.MissingOption? || a.InvalidOption? != b.InvalidOption? ||
             a.MissingArgument? != b.MissingArgument? || a.InvalidArgument? != b.InvalidArgument?
    ensures ReasonMessage(a) != ReasonMessage(b)
  {
    var ma, mb := ReasonMessage(a), ReasonMessage(b);
    Marks(a);
    Marks(b);
    if a.MissingOption? || a.MissingArgument? {
      if b.MissingOption? || b.MissingArgument? {
        MissingMarks(a);
        MissingMarks(b);
        assert ma[17] != mb[17];
      } else {
        assert ma[0] != mb[0];
      }
    } else {
      if b.MissingOption? || b.MissingArgument? {
        assert ma[0] != mb[0];
      } else {
        CouldMarks(a);
        CouldMarks(b);
        assert ma[18] != mb[18];
      }
    }
  }

  /** The letters that tell the messages apart: the first ('M'issing or 'C'ould), and
      the one that starts "option" or "argument". */
  lemma MissingMarks(r: Reason)
    requires r.MissingOption? || r.MissingArgument?
    ensures var m := ReasonMessage(r);
      |m| >= 18 && m[0] == 'M' && m[17] == (if r.MissingOption? then 'o' else 'a')
  {
    var p := "Missing expected ";
    var rest := if r.MissingOption? then "option '" + r.name + "'." else "argument.";
    assert ReasonMessage(r) == p + rest;
    assert |p| == 17 && p[0] == 'M';
    assert rest[0] == (if r.MissingOption? then 'o' else 'a');
  }

  lemma CouldMarks(r: Reason)
    requires r.InvalidOption? || r.InvalidArgument?
    ensures var m := ReasonMessage(r);
      |m| >= 19 && m[0] == 'C' && m[18] == (if r.InvalidOption? then 'o' else 'a')
  {
    var p := "Could not convert ";
    var rest := if r.InvalidOption? then
        "option '" + r.name + "' value '" + r.value + "' to expected type: " + r.expectedType + "."
      else "argument value '" + r.value + "' to expected type: " + r.expectedType + ".";
    assert ReasonMessage(r) == p + rest;
    assert |p| == 18 && p[0] == 'C';
    if r.InvalidOption? {
      PrefixChars("option '", r.name, "' value '", r.value, "' to expected type: " + r.expectedType + ".");
    } else {
      PrefixChars("argument value '", r.value, "' to expected type: ", r.expectedType, ".");
    }
  }

  lemma PrefixChars(p: string, a: string, b: string, c: string, d: string)
    ensures forall i :: 0 <= i < |p| ==> (p + a + b + c + d)[i] == p[i]
  {
  }

  /** Any reason's message starts with one of the two marks. */
  lemma Marks(r: Reason)
    ensures r.MissingOption? || r.MissingArgument? ==> ReasonMessage(r)[0] == 'M' && |ReasonMessage(r)| >= 18
    ensures r.InvalidOption? || r.InvalidArgument? ==> ReasonMessage(r)[0] == 'C' && |ReasonMessage(r)| >= 19
  {
    if r.MissingOption? || r.MissingArgument? {
      MissingMarks(r);
    } else {
      CouldMarks(r);
    }
  }

  /** The missing-option message names the option: different options, different messages. */
  lemma MissingOptionNamed(a: string, b: string)
    requires ReasonMessage(MissingOption(a)) == ReasonMessage(MissingOption(b))
    ensures a == b
  {
    var prefix := "Missing expected option '";
    var ma := ReasonMessage(MissingOption(a));
    assert a == ma[|prefix|..|ma| - 2];
  }

  // ---------------------------------------------------------------------------------
  // Token sequences

  /** `firstIndex(of:)`: the position of the first token equal to `x`, if there is one. */
  function FirstIndex(s: seq<string>, x: string): (r: Option<nat>)
    ensures r.None? <==> x !in s
    ensures r.Some? ==> r.value < |s| && s[r.value] == x && x !in s[..r.value]
  {
    if s == [] then None
    else if s[0] == x then Some(0)
    else
      var rest := FirstIndex(s[1..], x);
      assert s == [s[0]] + s[1..];
      if rest.None? then None
      else
        assert s[..rest.value + 1] == [s[0]] + s[1..][..rest.value];
        Some(rest.value + 1)
  }

  /** `a` is `b` with some tokens deleted and the rest in their order. */
  predicate IsSubsequence(a: seq<string>, b: seq<string>)
  {
    if a == [] then true
    else if b == [] then false
    else (a[0] == b[0] && IsSubsequence(a[1..], b[1..])) || IsSubsequence(a, b[1..])
  }

  lemma {:induction false} SubsequenceReflexive(s: seq<string>)
    ensures IsSubsequence(s, s)
  {
    if s != [] {
      SubsequenceReflexive(s[1..]);
    }
  }

  lemma {:induction false} SuffixIsSubsequence(s: seq<string>, j: nat)
    requires j <= |s|
    ensures IsSubsequence(s[j..], s)
  {
    if j == 0 {
      SubsequenceReflexive(s);
    } else if j < |s| {
      assert s[j..] == s[1..][j - 1..];
      SuffixIsSubsequence(s[1..], j - 1);
    }
  }

  /** Deleting tokens twice is deleting tokens once: the order kept by each of two calls
      is kept by both together. */
  lemma {:induction false} SubsequenceTransitive(a: seq<string>, b: seq<string>, c: seq<string>)
    requires IsSubsequence(a, b) && IsSubsequence(b, c)
    ensures IsSubsequence(a, c)
    decreases |c|
  {
    if a == [] {
    } else if b[0] == c[0] && IsSubsequence(b[1..], c[1..]) {
      if a[0] == b[0] && IsSubsequence(a[1..], b[1..]) {
        SubsequenceTransitive(a[1..], b[1..], c[1..]);
      } else {
        SubsequenceTransitive(a, b[1..], c[1..]);
      }
    } else {
      SubsequenceTransitive(a, b, c[1..]);
    }
  }

  /** Removing the tokens from `i` up to `j` keeps the rest in order. */
  lemma {:induction false} RemoveRangeIsSubsequence(s: seq<string>, i: nat, j: nat)
    requires i <= j <= |s|
    ensures IsSubsequence(s[..i] + s[j..], s)
  {
    if i == 0 {
      assert s[..i] + s[j..] == s[j..];
      SuffixIsSubsequence(s, j);
    } else {
      var r := s[..i] + s[j..];
      assert r[0] == s[0];
      assert r[1..] == s[1..][..i - 1] + s[1..][j - 1..];
      RemoveRangeIsSubsequence(s[1..], i - 1, j - 1);
    }
  }

  /** After an option and its value are removed, the next lookup of the same name finds
      the next occurrence after the value, two places earlier: repeated calls hand out
      the values in the order they were given. */
  lemma NextOccurrence(s: seq<string>, name: string, i: nat, j: nat)
    requires FirstIndex(s, name) == Some(i) && i + 2 <= j < |s|
    requires s[j] == name && name !in s[i + 2..j]
    ensures FirstIndex(s[..i] + s[i + 2..], name) == Some(j - 2)
  {
    var r := s[..i] + s[i + 2..];
    assert r[j - 2] == name;
    PrefixOfRemoved(s, i, j);
    FirstIndexAt(r, name, j - 2);
  }

  lemma PrefixOfRemoved(s: seq<string>, i: nat, j: nat)
    requires i + 2 <= j <= |s|
    ensures (s[..i] + s[i + 2..])[..j - 2] == s[..i] + s[i + 2..j]
  {
    var r := s[..i] + s[i + 2..];
    forall m | 0 <= m < j - 2
      ensures r[m] == (s[..i] + s[i + 2..j])[m]
    {
      if m >= i {
        assert r[m] == s[m + 2];
      }
    }
  }

  /** A position holding `x` with no `x` before it is the first index of `x`. */
  lemma FirstIndexAt(s: seq<string>, x: string, k: nat)
    requires k < |s| && s[k] == x && x !in s[..k]
    ensures FirstIndex(s, x) == Some(k)
  {
  }

  // ---------------------------------------------------------------------------------
  // The consumer

  /** `Arguments`: the words still to be consumed and the usage its errors carry. */
  class Arguments {
    var arguments: seq<string>
    const usage: Option<Usage.Usage>

    /** `init(arguments:usage:)`, with the words given explicitly and no usage by default. */
    constructor (arguments: seq<string>, usage: Option<Usage.Usage> := None)
      ensures this.arguments == arguments && this.usage == usage
    {
      this.arguments := arguments;
      this.usage := usage;
    }

    /** `consumeOption(named:)`: the token after the first occurrence of `name`, which is
        removed together with it. Fails, removing nothing, when `name` does not occur or
        its first occurrence is the last token. */
    method ConsumeOption(name: string) returns (r: Result<string>)
      modifies this`arguments
      ensures name !in old(arguments) ==>
        r == Err(ArgumentError(MissingOption(name), usage)) && arguments == old(arguments)
      ensures name in old(arguments) && FirstIndex(old(arguments), name).value == |old(arguments)| - 1 ==>
        r == Err(ArgumentError(MissingOption(name), usage)) && arguments == old(arguments)
      ensures var i := FirstIndex(old(arguments), name);
        i.Some? && i.value + 1 < |old(arguments)| ==>
          r == Ok(old(arguments)[i.value + 1]) &&
          arguments == old(arguments)[..i.value] + old(arguments)[i.value + 2..]
      ensures r.Ok? ==> |arguments| == |old(arguments)| - 2
      ensures IsSubsequence(arguments, old(arguments))
    {
      var nameIndex := FirstIndex(arguments, name);
      if nameIndex.None? {
        SubsequenceReflexive(arguments);
        return Err(ArgumentError(MissingOption(name), usage));
      }
      var valueIndex := nameIndex.value + 1;
      if valueIndex >= |arguments| {
        SubsequenceReflexive(arguments);
        return Err(ArgumentError(MissingOption(name), usage));
      }
      var option := arguments[valueIndex];
      RemoveRangeIsSubsequence(arguments, nameIndex.value, valueIndex + 1);
      arguments := arguments[..nameIndex.value] + arguments[valueIndex + 1..];
      return Ok(option);
    }

    /** `consumeArgument()`: the first token, removed. Fails, removing nothing, when no
        token is left. */
    method ConsumeArgument() returns (r: Result<string>)
      modifies this`arguments
      ensures old(arguments) == [] ==>
        r == Err(ArgumentError(MissingArgument, usage)) && arguments == old(arguments)
      ensures old(arguments) != [] ==> r == Ok(old(arguments)[0]) && arguments == old(arguments)[1..]
      ensures IsSubsequence(arguments, old(arguments))
    {
      if arguments == [] {
        SubsequenceReflexive(arguments);
        return Err(ArgumentError(MissingArgument, usage));
      }
      var first := arguments[0];
      SuffixIsSubsequence(arguments, 1);
      arguments := arguments[1..];
      return Ok(first);
    }

    /** `consumeFlag(named:)`: whether `name` occurs; its first occurrence, and only that
        one, is removed. Never fails. */
    method ConsumeFlag(name: string) returns (found: bool)
      modifies this`arguments
      ensures found <==> name in old(arguments)
      ensures !found ==> arguments == old(arguments)
      ensures found ==> var i := FirstIndex(old(arguments), name).value;
        arguments == old(arguments)[..i] + old(arguments)[i + 1..]
      ensures |arguments| == |old(arguments)| - (if found then 1 else 0)
      ensures IsSubsequence(arguments, old(arguments))
    {
      var flagIndex := FirstIndex(arguments, name);
      if flagIndex.None? {
        SubsequenceReflexive(arguments);
        return false;
      }
      RemoveRangeIsSubsequence(arguments, flagIndex.value, flagIndex.value + 1);
      arguments := arguments[..flagIndex.value] + arguments[flagIndex.value + 1..];
      return true;
    }
  }

  /** An option given twice: the first call hands out the first value, the second call
      the second, and nothing is left. */
  method RepeatedOption() returns (first: Result<string>, second: Result<string>, rest: seq<string>)
    ensures first == Ok("1") && second == Ok("2") && rest == []
  {
    var tokens := new Arguments(["--x", "1", "--x", "2"]);
    first := tokens.ConsumeOption("--x");
    assert tokens.arguments == ["--x", "2"];
    second := tokens.ConsumeOption("--x");
    rest := tokens.arguments;
  }

  /** One consume call a program makes. */
  datatype Call = OptionCall(name: string) | ArgumentCall | FlagCall(name: string)

  /** Any run of consume calls, whatever each returns, leaves the tokens not yet consumed
      in their original relative order, and never adds a token. */
  method ConsumeAll(args: Arguments, calls: seq<Call>)
    modifies args`arguments
    ensures IsSubsequence(args.arguments, old(args.arguments))
    ensures |args.arguments| <= |old(args.arguments)|
    decreases |calls|
  {
    if calls == [] {
      SubsequenceReflexive(args.arguments);
      return;
    }
    var before := args.arguments;
    match calls[0] {
      case OptionCall(name) =>
        var r := args.ConsumeOption(name);
      case ArgumentCall =>
        var r := args.ConsumeArgument();
      case FlagCall(name) =>
        var found := args.ConsumeFlag(name);
    }
    var after := args.arguments;
    ConsumeAll(args, calls[1..]);
    SubsequenceTransitive(args.arguments, after, before);
  }
}
