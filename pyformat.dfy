/** Python's printf-style `%` operator on strings (`template % args`),
    restricted to the three conversions the gpg command templates use:
    `%s`, `%d` and the escape `%%`. A result of `None` is the TypeError or
    ValueError that Python raises instead of returning a string. */
module PyFormat {

  datatype Option<+T> = None | Some(value: T)

  /** One right-hand operand of `%`: a Python `str` or `int`. */
  datatype Arg = Str(s: string) | Int(n: int)

  predicate NoPercent(s: string) {
    '%' !in s
  }

  /** The conversion kinds of an argument list: two lists with the same
      kinds succeed or fail together under any template. */
  predicate SameKinds(a: seq<Arg>, b: seq<Arg>) {
    |a| == |b| && forall i :: 0 <= i < |a| ==> a[i].Int? == b[i].Int?
  }

  function Digit(d: nat): (c: char)
    requires d < 10
    ensures '0' <= c <= '9'
  {
    "0123456789"[d]
  }

  /** Decimal digits of a natural number, most significant first. */
  function Digits(n: nat): (r: string)
    ensures r != [] && forall i :: 0 <= i < |r| ==> '0' <= r[i] <= '9'
  {
    if n < 10 then [Digit(n)] else Digits(n / 10) + [Digit(n % 10)]
  }

  /** `str(n)` for a Python int. */
  function Decimal(n: int): (r: string)
    ensures r != [] && NoPercent(r)
  {
    if n < 0 then "-" + Digits(-n) else Digits(n)
  }

  function Render(a: Arg): string {
    match a
    case Str(s) => s
    case Int(n) => Decimal(n)
  }

  function Prepend(p: string, o: Option<string>): Option<string> {
    match o
    case None => None
    case Some(s) => Some(p + s)
  }

  /** `t % tuple(args)`: each `%s` takes the next argument as text, each
      `%d` the next argument, which must be an int, `%%` stands for one
      `%`; any other character after `%`, a `%` at the very end, too few
      arguments or arguments left over make Python raise. */
  function Format(t: string, args: seq<Arg>): Option<string>
    decreases |t|
  {
    if t == [] then
      if args == [] then Some([]) else None
    else if t[0] != '%' then
      Prepend([t[0]], Format(t[1..], args))
    else if |t| == 1 then
      None
    else if t[1] == '%' then
      Prepend("%", Format(t[2..], args))
    else if args == [] then
      None
    else if t[1] == 's' then
      Prepend(Render(args[0]), Format(t[2..], args[1..]))
    else if t[1] == 'd' && args[0].Int? then
      Prepend(Decimal(args[0].n), Format(t[2..], args[1..]))
    else
      None
  }

  lemma PrependTwice(a: string, b: string, o: Option<string>)
    ensures Prepend(a, Prepend(b, o)) == Prepend(a + b, o)
  {
    if o.Some? {
      assert a + (b + o.value) == (a + b) + o.value;
    }
  }

  /** Text without `%` is copied through unchanged and consumes nothing. */
  lemma {:induction false} FormatText(lit: string, rest: string, args: seq<Arg>)
    requires NoPercent(lit)
    ensures Format(lit + rest, args) == Prepend(lit, Format(rest, args))
  {
    if lit == [] {
      assert lit + rest == rest;
      match Format(rest, args)
      case None =>
      case Some(s) => assert lit + s == s;
    } else {
      assert (lit + rest)[0] == lit[0];
      assert (lit + rest)[1..] == lit[1..] + rest;
      FormatText(lit[1..], rest, args);
      PrependTwice([lit[0]], lit[1..], Format(rest, args));
      assert [lit[0]] + lit[1..] == lit;
    }
  }

  /** A template without `%` formats to itself with no arguments, and
      raises when given any: it has no open slot. */
  lemma Closed(lit: string, args: seq<Arg>)
    requires NoPercent(lit)
    ensures Format(lit, args) == if args == [] then Some(lit) else None
  {
    FormatText(lit, [], args);
    assert lit + [] == lit;
  }

  /** `%s` renders the next argument, whatever its kind. */
  lemma FormatStr(rest: string, a: Arg, args: seq<Arg>)
    ensures Format("%s" + rest, [a] + args) == Prepend(Render(a), Format(rest, args))
  {
    var t := "%s" + rest;
    assert t[0] == '%' && t[1] == 's' && t[2..] == rest;
    assert ([a] + args)[0] == a && ([a] + args)[1..] == args;
  }

  /** `%d` renders the next argument when it is an int. */
  lemma FormatInt(rest: string, n: int, args: seq<Arg>)
    ensures Format("%d" + rest, [Int(n)] + args) == Prepend(Decimal(n), Format(rest, args))
  {
    var t := "%d" + rest;
    assert t[0] == '%' && t[1] == 'd' && t[2..] == rest;
    assert ([Int(n)] + args)[0] == Int(n) && ([Int(n)] + args)[1..] == args;
  }

  /** `%%` stands for a single `%` and consumes nothing. */
  lemma FormatEscape(rest: string, args: seq<Arg>)
    ensures Format("%%" + rest, args) == Prepend("%", Format(rest, args))
  {
    var t := "%%" + rest;
    assert t[0] == '%' && t[1] == '%' && t[2..] == rest;
  }

  /** Text without `%`, then `%s`: both parts are copied into the result. */
  lemma TextStr(lit: string, rest: string, x: string, args: seq<Arg>)
    requires NoPercent(lit)
    ensures Format(lit + "%s" + rest, [Str(x)] + args) == Prepend(lit + x, Format(rest, args))
  {
    assert lit + "%s" + rest == lit + ("%s" + rest);
    FormatText(lit, "%s" + rest, [Str(x)] + args);
    FormatStr(rest, Str(x), args);
    PrependTwice(lit, x, Format(rest, args));
  }

  /** Text without `%`, then `%d` taking an int. */
  lemma TextInt(lit: string, rest: string, n: int, args: seq<Arg>)
    requires NoPercent(lit)
    ensures Format(lit + "%d" + rest, [Int(n)] + args) == Prepend(lit + Decimal(n), Format(rest, args))
  {
    assert lit + "%d" + rest == lit + ("%d" + rest);
    FormatText(lit, "%d" + rest, [Int(n)] + args);
    FormatInt(rest, n, args);
    PrependTwice(lit, Decimal(n), Format(rest, args));
  }

  /** Text without `%`, then the escape `%%`. */
  lemma TextEscape(lit: string, rest: string, args: seq<Arg>)
    requires NoPercent(lit)
    ensures Format(lit + "%%" + rest, args) == Prepend(lit + "%", Format(rest, args))
  {
    assert lit + "%%" + rest == lit + ("%%" + rest);
    FormatText(lit, "%%" + rest, args);
    FormatEscape(rest, args);
    PrependTwice(lit, "%", Format(rest, args));
  }

  /** Whether `%` succeeds depends only on the template and on the kinds of
      the arguments, never on their values. */
  lemma {:induction false} FormatKinds(t: string, a: seq<Arg>, b: seq<Arg>)
    requires SameKinds(a, b)
    ensures Format(t, a).Some? == Format(t, b).Some?
    decreases |t|
  {
    if t == [] {
    } else if t[0] != '%' {
      FormatKinds(t[1..], a, b);
    } else if |t| == 1 {
    } else if t[1] == '%' {
      FormatKinds(t[2..], a, b);
    } else if a == [] {
    } else {
      assert a[0].Int? == b[0].Int?;
      assert SameKinds(a[1..], b[1..]) by {
        forall i | 0 <= i < |a| - 1 ensures a[1..][i].Int? == b[1..][i].Int? {
          assert a[1..][i] == a[i + 1] && b[1..][i] == b[i + 1];
        }
      }
      FormatKinds(t[2..], a[1..], b[1..]);
    }
  }
}
