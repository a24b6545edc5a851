/** The typed consume calls (Sources/Arguments/ExpressibleByArgument.swift). A type's
    `init?(argument:)` is the conversion `convert`, and the name its errors print for the
    type is `expectedType`. */
module ExpressibleByArgument {
  import opened Wrappers
  import opened Arguments

  /** Typed `consumeOption(named:as:)`: the untyped call first, which removes the option
      and its value, then the conversion. A missing option fails as the untyped call
      does; a value the conversion refuses fails with `invalidOption`, and the two tokens
      stay removed. */
  method ConsumeOptionAs<T>(args: Arguments, name: string, convert: string -> Option<T>, expectedType: string)
    returns (r: Result<T>)
    modifies args`arguments
    ensures var i := FirstIndex(old(args.arguments), name);
      i.None? || i.value + 1 == |old(args.arguments)| ==>
        r == Err(ArgumentError(MissingOption(name), args.usage)) && args.arguments == old(args.arguments)
    ensures var i := FirstIndex(old(args.arguments), name);
      i.Some? && i.value + 1 < |old(args.arguments)| ==>
        var raw := old(args.arguments)[i.value + 1];
        args.arguments == old(args.arguments)[..i.value] + old(args.arguments)[i.value + 2..] &&
        (convert(raw).Some? ==> r == Ok(convert(raw).value)) &&
        (convert(raw).None? ==> r == Err(ArgumentError(InvalidOption(name, raw, expectedType), args.usage)))
  {
    var rawOption := args.ConsumeOption(name);
    if rawOption.Err? {
      return Err(rawOption.error);
    }
    var option := convert(rawOption.value);
    if option.None? {
      return Err(ArgumentError(InvalidOption(name, rawOption.value, expectedType), args.usage));
    }
    return Ok(option.value);
  }

  /** Typed `consumeArgument(as:)`: the untyped call first, which removes the first token,
      then the conversion. No token left fails as the untyped call does; a token the
      conversion refuses fails with `invalidArgument`, and it stays removed. */
  method ConsumeArgumentAs<T>(args: Arguments, convert: string -> Option<T>, expectedType: string)
    returns (r: Result<T>)
    modifies args`arguments
    ensures old(args.arguments) == [] ==>
      r == Err(ArgumentError(MissingArgument, args.usage)) && args.arguments == old(args.arguments)
    ensures old(args.arguments) != [] ==>
      var raw := old(args.arguments)[0];
      args.arguments == old(args.arguments)[1..] &&
      (convert(raw).Some? ==> r == Ok(convert(raw).value)) &&
      (convert(raw).None? ==> r == Err(ArgumentError(InvalidArgument(raw, expectedType), args.usage)))
  {
    var rawArgument := args.ConsumeArgument();
    if rawArgument.Err? {
      return Err(rawArgument.error);
    }
    var argument := convert(rawArgument.value);
    if argument.None? {
      return Err(ArgumentError(InvalidArgument(rawArgument.value, expectedType), args.usage));
    }
    return Ok(argument.value);
  }
}
