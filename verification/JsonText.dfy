/** The text JSON.stringify makes of a flat object of numbers, strings, booleans and nulls, and that it can be read back
    in one way only. */
module JsonText {
  import opened Decimal

  datatype Json = JNull | JNumber(n: int) | JString(s: string) | JBool(b: bool)

  function Hex(d: nat): char
    requires d < 16
  {
    "0123456789abcdef"[d]
  }

  function Escape(c: char): string {
    if c == '"' then ['\\', '"']
    else if c == '\\' then ['\\', '\\']
    else if c == 8 as char then "\\b"
    else if c == 12 as char then "\\f"
    else if c == '\n' then "\\n"
    else if c == '\r' then "\\r"
    else if c == '\t' then "\\t"
    else if c < ' ' then "\\u00" + [Hex(c as nat / 16), Hex(c as nat % 16)]
    else [c]
  }

  function Body(s: string): string {
    if s == "" then "" else Escape(s[0]) + Body(s[1..])
  }

  function Quoted(s: string): string {
    ['"'] + Body(s) + ['"']
  }

  function IntText(n: int): string {
    Signed(n < 0, Text(Magnitude(n)))
  }

  function Magnitude(n: int): nat {
    if n < 0 then -n else n
  }

  function Signed(negative: bool, digits: string): string {
    if negative then "-" + digits else digits
  }

  function TextOf(v: Json): string {
    match v
    case JNull => "null"
    case JNumber(n) => IntText(n)
    case JString(s) => Quoted(s)
    case JBool(b) => if b then "true" else "false"
  }

  /** `"name":value` pairs joined by commas, with the closing brace. */
  function Members(names: seq<string>, values: seq<Json>): string
    requires |names| == |values|
    decreases |values|, 1
  {
    if names == [] then "}" else Quoted(names[0]) + ":" + TextOf(values[0]) + Rest(names, values)
  }

  function Rest(names: seq<string>, values: seq<Json>): string
    requires |names| == |values| > 0
    decreases |values|, 0
  {
    if |names| == 1 then "}" else "," + Members(names[1..], values[1..])
  }

  function ObjectText(names: seq<string>, values: seq<Json>): string
    requires |names| == |values|
  {
    "{" + Members(names, values)
  }

  // ---------------------------------------------------------------- unique reading

  lemma Cancel(p: string, x: string, y: string)
    requires p + x == p + y
    ensures x == y
  {
    assert (p + x)[|p|..] == x && (p + y)[|p|..] == y;
  }

  predicate Stops(x: string) {
    x != "" && (x[0] == ',' || x[0] == '}')
  }

  ghost predicate AllDigits(a: string) {
    forall i | 0 <= i < |a| :: '0' <= a[i] <= '9'
  }

  lemma NotShorter(a: string, b: string, x: string, y: string)
    requires a + x == b + y && Stops(x) && AllDigits(b)
    ensures |a| >= |b|
  {
    assert (a + x)[|a|] == x[0];
    forall i | 0 <= i < |b| ensures '0' <= (b + y)[i] <= '9' {
      assert (b + y)[i] == b[i];
    }
  }

  lemma DigitsCancel(a: string, b: string, x: string, y: string)
    requires a + x == b + y && Stops(x) && Stops(y) && AllDigits(a) && AllDigits(b)
    ensures a == b
  {
    NotShorter(a, b, x, y);
    NotShorter(b, a, y, x);
    assert (a + x)[..|a|] == a && (b + y)[..|b|] == b;
  }

  lemma TextCancel(n: nat, m: nat, x: string, y: string)
    requires Text(n) + x == Text(m) + y && Stops(x) && Stops(y)
    ensures n == m && x == y
  {
    TextIsDigits(n);
    TextIsDigits(m);
    DigitsCancel(Text(n), Text(m), x, y);
    TextInjective(n, m);
    Cancel(Text(n), x, y);
  }

  lemma FirstOf(a: string, x: string)
    requires a != ""
    ensures (a + x)[0] == a[0]
  {
  }

  lemma FirstDigit(n: nat)
    ensures Text(n) != "" && '0' <= Text(n)[0] <= '9'
  {
    TextValue(n);
    TextIsDigits(n);
  }

  lemma SignedThen(negative: bool, digits: string, x: string)
    requires digits != ""
    ensures Signed(negative, digits) + x == if negative then "-" + (digits + x) else digits + x
    ensures (Signed(negative, digits) + x)[0] == if negative then '-' else digits[0]
  {
  }

  lemma SignedCancel(p: bool, q: bool, a: string, b: string, x: string, y: string)
    requires Signed(p, a) + x == Signed(q, b) + y
    requires a != "" && a[0] != '-' && b != "" && b[0] != '-'
    ensures p == q && a + x == b + y
  {
    SignedThen(p, a, x);
    SignedThen(q, b, y);
    if p { Cancel("-", a + x, b + y); }
  }

  lemma IntCancel(n: int, m: int, x: string, y: string)
    requires IntText(n) + x == IntText(m) + y && Stops(x) && Stops(y)
    ensures n == m && x == y
  {
    FirstDigit(Magnitude(n));
    FirstDigit(Magnitude(m));
    SignedCancel(n < 0, m < 0, Text(Magnitude(n)), Text(Magnitude(m)), x, y);
    TextCancel(Magnitude(n), Magnitude(m), x, y);
  }

  /** One escaped character is never the beginning of another. */
  lemma EscapeCancel(c: char, d: char, x: string, y: string)
    requires Escape(c) + x == Escape(d) + y
    ensures c == d && x == y
  {
    var a, b := Escape(c) + x, Escape(d) + y;
    assert a[0] == b[0] && a[0] == Escape(c)[0] && b[0] == Escape(d)[0];
    if |Escape(c)| > 1 {
      assert a[1] == Escape(c)[1] && b[1] == Escape(d)[1];
      if |Escape(c)| > 2 {
        assert a[4] == Escape(c)[4] && b[4] == Escape(d)[4] && a[5] == Escape(c)[5] && b[5] == Escape(d)[5];
        HexInjective(c as nat / 16, d as nat / 16);
        HexInjective(c as nat % 16, d as nat % 16);
      }
    }
    Cancel(Escape(c), x, y);
  }

  lemma HexInjective(a: nat, b: nat)
    requires a < 16 && b < 16 && Hex(a) == Hex(b)
    ensures a == b
  {
  }

  lemma NoBareQuote(c: char)
    ensures Escape(c) != "" && Escape(c)[0] != '"'
  {
  }

  lemma NothingBeforeQuote(t: string, x: string, y: string)
    requires ['"'] + x == Body(t) + (['"'] + y)
    ensures t == "" && x == y
  {
    if t != "" {
      NoBareQuote(t[0]);
      FirstOf(Body(t), ['"'] + y);
    } else {
      assert Body(t) + (['"'] + y) == ['"'] + y;
      Cancel(['"'], x, y);
    }
  }

  lemma BodyThen(s: string, u: string)
    requires s != ""
    ensures Body(s) + u == Escape(s[0]) + (Body(s[1..]) + u)
  {
  }

  /** A string's text ends at its first bare quote. */
  lemma {:induction false} BodyCancel(s: string, t: string, x: string, y: string)
    requires Body(s) + (['"'] + x) == Body(t) + (['"'] + y)
    ensures s == t && x == y
  {
    var u, v := ['"'] + x, ['"'] + y;
    if s == "" {
      assert Body(s) + u == u;
      NothingBeforeQuote(t, x, y);
    } else if t == "" {
      assert Body(t) + v == v;
      NothingBeforeQuote(s, y, x);
    } else {
      var c, d, a, b := s[0], t[0], Body(s[1..]), Body(t[1..]);
      BodyThen(s, u);
      BodyThen(t, v);
      EscapeCancel(c, d, a + u, b + v);
      BodyCancel(s[1..], t[1..], x, y);
      assert s == [c] + s[1..] && t == [d] + t[1..];
    }
  }

  function FirstChar(v: Json): char {
    match v
    case JNull => 'n'
    case JNumber(n) => if n < 0 then '-' else '0'
    case JString(_) => '"'
    case JBool(b) => if b then 't' else 'f'
  }

  lemma FirstCharOf(v: Json, x: string)
    ensures var c := (TextOf(v) + x)[0]; if v.JNumber? && v.n >= 0 then '0' <= c <= '9' else c == FirstChar(v)
  {
    if v.JNumber? {
      FirstDigit(Magnitude(v.n));
      SignedThen(v.n < 0, Text(Magnitude(v.n)), x);
    }
  }

  lemma SameKind(v: Json, w: Json, x: string, y: string)
    requires TextOf(v) + x == TextOf(w) + y
    ensures (v.JNumber? <==> w.JNumber?) && (v.JString? <==> w.JString?)
    ensures v.JNull? || v.JBool? ==> w == v
  {
    FirstCharOf(v, x);
    FirstCharOf(w, y);
  }

  lemma QuotedThen(s: string, x: string)
    ensures Quoted(s) + x == ['"'] + (Body(s) + (['"'] + x))
  {
  }

  lemma QuotedCancel(s: string, t: string, x: string, y: string)
    requires Quoted(s) + x == Quoted(t) + y
    ensures s == t && x == y
  {
    QuotedThen(s, x);
    QuotedThen(t, y);
    Cancel(['"'], Body(s) + (['"'] + x), Body(t) + (['"'] + y));
    BodyCancel(s, t, x, y);
  }

  /** A value's text followed by a comma or a brace determines the value. */
  lemma ValueCancel(v: Json, w: Json, x: string, y: string)
    requires TextOf(v) + x == TextOf(w) + y && Stops(x) && Stops(y)
    ensures v == w && x == y
  {
    SameKind(v, w, x, y);
    if v.JNumber? {
      IntCancel(v.n, w.n, x, y);
    } else if v.JString? {
      QuotedCancel(v.s, w.s, x, y);
    } else {
      Cancel(TextOf(v), x, y);
    }
  }

  lemma MembersThen(names: seq<string>, values: seq<Json>)
    requires |names| == |values| > 0
    ensures Members(names, values) == Quoted(names[0]) + ":" + (TextOf(values[0]) + Rest(names, values))
    ensures Stops(Rest(names, values))
  {
  }

  /** Two objects with the same member names have the same text only if their values are equal. */
  lemma {:induction false} MembersInjective(names: seq<string>, v: seq<Json>, w: seq<Json>)
    requires |names| == |v| == |w| && Members(names, v) == Members(names, w)
    ensures v == w
  {
    if names != [] {
      var p, x, y := Quoted(names[0]) + ":", Rest(names, v), Rest(names, w);
      MembersThen(names, v);
      MembersThen(names, w);
      Cancel(p, TextOf(v[0]) + x, TextOf(w[0]) + y);
      ValueCancel(v[0], w[0], x, y);
      if |names| > 1 {
        Cancel(",", Members(names[1..], v[1..]), Members(names[1..], w[1..]));
        MembersInjective(names[1..], v[1..], w[1..]);
      }
      assert v == [v[0]] + v[1..] && w == [w[0]] + w[1..];
    }
  }
}
