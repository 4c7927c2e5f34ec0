/** The parsed command line as a dictionary from option names to values, and
    the step every handler applies to it right after parsing: options declared
    with `nargs=1` come back from the parser as one-element lists and are
    replaced by their single element. */
module Args {

  /** A Python float as `type=float` parses it: a finite number, an
      infinity (`inf`, `-inf`), or NaN (`nan`), for which every ordering
      comparison is false. */
  datatype Float = Finite(value: real) | Infinity(negative: bool) | NaN

  /** One value as the parser converts it (`type=str`, `int`, `float`, or a
      `store_true` flag). */
  datatype Scalar = Text(text: string) | Number(number: int) | Decimal(decimal: Float) | Flag(flag: bool)

  /** A dictionary entry: a plain value (a default or a flag) or the list the
      parser builds for an option given with `nargs`. */
  datatype ArgValue = One(value: Scalar) | Many(items: seq<Scalar>)

  /** What the unwrap step leaves in an entry it visits: a list becomes its
      first element, anything else stays. */
  function Unwrapped(v: ArgValue): (r: ArgValue)
    requires v.Many? ==> |v.items| >= 1
    ensures r.One?
    ensures v.One? ==> r == v
  {
    if v.Many? then One(v.items[0]) else v
  }

  /** For each listed key, `if type(oargs[k]) is list: oargs[k] = oargs[k][0]`.
      The parser gives every `nargs=1` option a list of exactly one element,
      so each listed list entry is non-empty. Listed keys become plain
      values; every other entry, such as the three-element vectors and the
      job lists, is left as the parser built it. */
  method UnwrapSingletons(parsed: map<string, ArgValue>, keys: seq<string>) returns (oargs: map<string, ArgValue>)
    requires forall i :: 0 <= i < |keys| ==> keys[i] in parsed
    requires forall k :: k in parsed && parsed[k].Many? ==> |parsed[k].items| >= 1
    ensures oargs.Keys == parsed.Keys
    ensures forall k :: k in parsed && k in keys ==> oargs[k] == Unwrapped(parsed[k])
    ensures forall k :: k in parsed && k !in keys ==> oargs[k] == parsed[k]
    ensures forall k :: k in keys ==> oargs[k].One?
  {
    oargs := parsed;
    var i := 0;
    while i < |keys|
      invariant 0 <= i <= |keys|
      invariant oargs.Keys == parsed.Keys
      invariant forall k :: k in parsed && k in keys[..i] ==> oargs[k] == Unwrapped(parsed[k])
      invariant forall k :: k in parsed && k !in keys[..i] ==> oargs[k] == parsed[k]
    {
      var k := keys[i];
      if oargs[k].Many? {
        oargs := oargs[k := One(oargs[k].items[0])];
      }
      assert keys[..i + 1] == keys[..i] + [k];
      i := i + 1;
    }
    assert keys[..i] == keys;
  }
}
