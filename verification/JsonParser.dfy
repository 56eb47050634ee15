// A reader for JSON text (sections 2 to 7 of RFC 8259, integers only), and the
// proof that it undoes the printer, whichever separators are used.
module JsonParser {
  import opened Text
  import opened Json

  datatype Parsed<+T> = Bad | Ok(value: T, rest: string)

  // ---- tokens ----

  predicate IsSpace(c: char) { c == ' ' || c == '\t' || c == '\n' || c == '\r' }
  predicate IsDigit(c: char) { '0' <= c <= '9' }

  function SkipSpace(t: string): (r: string)
    ensures |r| <= |t|
  {
    if t != [] && IsSpace(t[0]) then SkipSpace(t[1..]) else t
  }

  function UnHex(c: char): (n: int)
    ensures -1 <= n < 16
  {
    if '0' <= c <= '9' then c as int - 48
    else if 'a' <= c <= 'f' then c as int - 87
    else if 'A' <= c <= 'F' then c as int - 55
    else -1
  }

  function ParseHex4(t: string): (r: Parsed<nat>)
    ensures r.Ok? ==> r.value < 0x10000 && |r.rest| + 4 == |t|
  {
    if |t| < 4 then Bad
    else
      var a, b, c, d := UnHex(t[0]), UnHex(t[1]), UnHex(t[2]), UnHex(t[3]);
      if a < 0 || b < 0 || c < 0 || d < 0 then Bad
      else Ok((a * 16 + b) * 256 + (c * 16 + d), t[4..])
  }

  // The part of an escape after `\u`; a high surrogate needs its low half.
  function ParseUnicode(t: string): (r: Parsed<char>)
    ensures r.Ok? ==> |r.rest| < |t|
  {
    match ParseHex4(t)
    case Bad => Bad
    case Ok(n, rest) =>
      if 0xD800 <= n < 0xDC00 then
        if "\\u" <= rest then
          match ParseHex4(rest[2..])
          case Bad => Bad
          case Ok(m, rest') =>
            if 0xDC00 <= m < 0xE000
            then Ok((0x10000 + (n - 0xD800) * 1024 + (m - 0xDC00)) as char, rest')
            else Bad
        else Bad
      else if 0xDC00 <= n < 0xE000 then Bad
      else Ok(n as char, rest)
  }

  // The part of an escape after the backslash.
  function ParseEscape(t: string): (r: Parsed<char>)
    ensures r.Ok? ==> |r.rest| < |t|
  {
    if t == [] then Bad
    else match t[0]
      case '"' => Ok('"', t[1..])
      case '\\' => Ok('\\', t[1..])
      case '/' => Ok('/', t[1..])
      case 'b' => Ok(8 as char, t[1..])
      case 'f' => Ok(12 as char, t[1..])
      case 'n' => Ok('\n', t[1..])
      case 'r' => Ok('\r', t[1..])
      case 't' => Ok('\t', t[1..])
      case 'u' => ParseUnicode(t[1..])
      case _ => Bad
  }

  // A string after its opening quote.
  function ParseChars(t: string): (r: Parsed<string>)
    ensures r.Ok? ==> |r.rest| < |t|
    decreases |t|
  {
    if t == [] || t[0] < ' ' then Bad
    else if t[0] == '"' then Ok("", t[1..])
    else
      var first := if t[0] == '\\' then ParseEscape(t[1..]) else Ok(t[0], t[1..]);
      match first
      case Bad => Bad
      case Ok(c, rest) =>
        match ParseChars(rest)
        case Bad => Bad
        case Ok(s, rest') => Ok([c] + s, rest')
  }

  function DigitsPrefix(t: string): (n: nat)
    ensures n <= |t|
    ensures forall i :: 0 <= i < n ==> IsDigit(t[i])
  {
    if t != [] && IsDigit(t[0]) then 1 + DigitsPrefix(t[1..]) else 0
  }

  function DigitsValue(t: string): nat
    requires forall i :: 0 <= i < |t| ==> IsDigit(t[i])
  {
    if t == [] then 0
    else
      assert IsDigit(t[|t| - 1]);
      DigitsValue(t[..|t| - 1]) * 10 + (t[|t| - 1] as int - 48)
  }

  // Digits without a superfluous leading zero.
  function ParseNat(t: string): (r: Parsed<nat>)
    ensures r.Ok? ==> |r.rest| < |t|
  {
    var n := DigitsPrefix(t);
    if n == 0 || (n > 1 && t[0] == '0') then Bad else Ok(DigitsValue(t[..n]), t[n..])
  }

  // ---- values ----

  function ParseValue(t: string): (r: Parsed<Value>)
    ensures r.Ok? ==> |r.rest| < |t|
    decreases |t|, 0
  {
    if t == [] then Bad
    else if IsSpace(t[0]) then ParseValue(t[1..])
    else if "null" <= t then Ok(Null, t[4..])
    else if "true" <= t then Ok(Bool(true), t[4..])
    else if "false" <= t then Ok(Bool(false), t[5..])
    else if t[0] == '"' then
      match ParseChars(t[1..])
      case Bad => Bad
      case Ok(s, rest) => Ok(Str(s), rest)
    else if t[0] == '[' then
      var rest := SkipSpace(t[1..]);
      if rest != [] && rest[0] == ']' then Ok(Arr([]), rest[1..])
      else
        match ParseItems(rest)
        case Bad => Bad
        case Ok(xs, rest') => Ok(Arr(xs), rest')
    else if t[0] == '{' then
      var rest := SkipSpace(t[1..]);
      if rest != [] && rest[0] == '}' then Ok(Obj([]), rest[1..])
      else
        match ParseMembers(rest)
        case Bad => Bad
        case Ok(d, rest') => Ok(Obj(d), rest')
    else if t[0] == '-' then
      match ParseNat(t[1..])
      case Bad => Bad
      case Ok(n, rest) => Ok(Int(-(n as int)), rest)
    else
      match ParseNat(t)
      case Bad => Bad
      case Ok(n, rest) => Ok(Int(n), rest)
  }

  // One or more items and the closing bracket.
  function ParseItems(t: string): (r: Parsed<seq<Value>>)
    ensures r.Ok? ==> |r.rest| < |t|
    decreases |t|, 1
  {
    match ParseValue(t)
    case Bad => Bad
    case Ok(v, after) =>
      var rest := SkipSpace(after);
      if rest == [] then Bad
      else if rest[0] == ']' then Ok([v], rest[1..])
      else if rest[0] == ',' then
        match ParseItems(rest[1..])
        case Bad => Bad
        case Ok(vs, rest') => Ok([v] + vs, rest')
      else Bad
  }

  function ParseMember(t: string): (r: Parsed<Member>)
    ensures r.Ok? ==> |r.rest| < |t|
    decreases |t|, 1
  {
    var t' := SkipSpace(t);
    if t' == [] || t'[0] != '"' then Bad
    else
      match ParseChars(t'[1..])
      case Bad => Bad
      case Ok(key, after) =>
        var rest := SkipSpace(after);
        if rest == [] || rest[0] != ':' then Bad
        else
          match ParseValue(rest[1..])
          case Bad => Bad
          case Ok(v, rest') => Ok(Member(key, v), rest')
  }

  // One or more members and the closing brace.
  function ParseMembers(t: string): (r: Parsed<Dict>)
    ensures r.Ok? ==> |r.rest| < |t|
    decreases |t|, 2
  {
    match ParseMember(t)
    case Bad => Bad
    case Ok(m, after) =>
      var rest := SkipSpace(after);
      if rest == [] then Bad
      else if rest[0] == '}' then Ok([m], rest[1..])
      else if rest[0] == ',' then
        match ParseMembers(rest[1..])
        case Bad => Bad
        case Ok(ms, rest') => Ok([m] + ms, rest')
      else Bad
  }

  // `json.loads`: a value and nothing but white space after it.
  function Parse(t: string): Option<Value> {
    match ParseValue(t)
    case Bad => None
    case Ok(v, rest) => if SkipSpace(rest) == [] then Some(v) else None
  }

  // ---- the reader undoes the printer ----

  lemma HexDigitRoundTrip(n: nat)
    requires n < 16
    ensures UnHex(HexDigit(n)) == n
  {
  }

  lemma Hex4RoundTrip(n: nat, r: string)
    requires n < 0x10000
    ensures ParseHex4(Hex4(n) + r) == Ok(n, r)
  {
    HexDigitRoundTrip(n / 0x100 / 16);
    HexDigitRoundTrip(n / 0x100 % 16);
    HexDigitRoundTrip(n % 0x100 / 16);
    HexDigitRoundTrip(n % 0x100 % 16);
    assert (Hex4(n) + r)[4..] == r;
  }

  lemma UnicodeRoundTrip(c: char, r: string)
    ensures "\\u" <= EscapeUnicode(c)
    ensures ParseUnicode(EscapeUnicode(c)[2..] + r) == Ok(c, r)
  {
    hide Hex4, ParseHex4;
    var t := EscapeUnicode(c)[2..] + r;
    if c as int < 0x10000 {
      assert t == Hex4(c as int) + r;
      Hex4RoundTrip(c as int, r);
    } else {
      var low := Hex4(LowSurrogate(c)) + r;
      assert t == Hex4(HighSurrogate(c)) + ("\\u" + low);
      Hex4RoundTrip(LowSurrogate(c), r);
      Hex4RoundTrip(HighSurrogate(c), "\\u" + low);
      assert ("\\u" + low)[2..] == low;
    }
  }

  predicate Plain(c: char) { ' ' <= c <= '~' && c != '"' && c != '\\' }

  lemma EscapeRoundTrip(c: char, r: string)
    ensures Plain(c) ==> EscapeChar(c) == [c]
    ensures !Plain(c) ==> EscapeChar(c) != [] && EscapeChar(c)[0] == '\\'
    ensures !Plain(c) ==> ParseEscape(EscapeChar(c)[1..] + r) == Ok(c, r)
  {
    hide EscapeUnicode, ParseUnicode;
    if !Plain(c) {
      UnicodeRoundTrip(c, r);
      var t := EscapeChar(c)[1..] + r;
      if c == '"' || c == '\\' || c == '\n' || c == '\r' || c == '\t' || c as int == 12 || c as int == 8 {
        assert t[1..] == r;
      } else {
        assert t[1..] == EscapeUnicode(c)[2..] + r;
      }
    }
  }

  lemma {:induction false} StringRoundTrip(s: string, r: string)
    ensures ParseChars(Escape(s) + "\"" + r) == Ok(s, r)
  {
    hide EscapeChar, ParseEscape;
    var t := Escape(s) + "\"" + r;
    if s == [] {
      assert t == "\"" + r;
    } else {
      var t' := Escape(s[1..]) + "\"" + r;
      assert t == EscapeChar(s[0]) + t';
      EscapeRoundTrip(s[0], t');
      if Plain(s[0]) {
        assert t[1..] == t';
      } else {
        assert t[1..] == EscapeChar(s[0])[1..] + t';
      }
      StringRoundTrip(s[1..], r);
      assert s == [s[0]] + s[1..];
    }
  }

  lemma {:induction false} EmitNatDigits(n: nat)
    ensures |EmitNat(n)| > 0
    ensures forall i :: 0 <= i < |EmitNat(n)| ==> IsDigit(EmitNat(n)[i])
    ensures DigitsValue(EmitNat(n)) == n
    ensures EmitNat(n)[0] == '0' ==> n == 0
  {
    if n >= 10 {
      EmitNatDigits(n / 10);
      assert EmitNat(n)[..|EmitNat(n)| - 1] == EmitNat(n / 10);
    } else {
      assert EmitNat(n)[..0] == "";
    }
  }

  // What may follow a value in printed text.
  predicate Delimited(r: string) {
    r == [] || !IsDigit(r[0])
  }

  lemma {:induction false} DigitsPrefixExact(a: string, r: string)
    requires forall i :: 0 <= i < |a| ==> IsDigit(a[i])
    requires Delimited(r)
    ensures DigitsPrefix(a + r) == |a|
  {
    if a == [] {
      assert a + r == r;
    } else {
      assert (a + r)[1..] == a[1..] + r;
      DigitsPrefixExact(a[1..], r);
    }
  }

  lemma NatRoundTrip(n: nat, r: string)
    requires Delimited(r)
    ensures ParseNat(EmitNat(n) + r) == Ok(n, r)
  {
    EmitNatDigits(n);
    DigitsPrefixExact(EmitNat(n), r);
    assert (EmitNat(n) + r)[..|EmitNat(n)|] == EmitNat(n);
    assert (EmitNat(n) + r)[|EmitNat(n)|..] == r;
  }

  // No printed value starts with white space or a closing bracket.
  lemma EmitHead(v: Value, st: Style)
    ensures |Emit(v, st)| > 0
    ensures !IsSpace(Emit(v, st)[0]) && Emit(v, st)[0] != ']'
  {
    if v.Int? { EmitNatDigits(if v.i < 0 then -v.i else v.i); }
  }

  lemma MembersHead(d: Dict, st: Style)
    requires d != []
    ensures EmitMembers(d, st) != [] && EmitMembers(d, st)[0] == '"'
  {
  }

  // The blank after a separator is skipped.
  lemma SpaceBeforeValue(t: string)
    ensures ParseValue(" " + t) == ParseValue(t)
  {
    assert (" " + t)[1..] == t;
  }

  lemma LastItem(t: string, v: Value, r: string)
    requires ParseValue(t) == Ok(v, "]" + r)
    ensures ParseItems(t) == Ok([v], r)
  {
    hide ParseValue;
    assert ("]" + r)[1..] == r;
  }

  lemma MoreItems(t: string, v: Value, st: Style, t': string, vs: seq<Value>, r: string)
    requires ParseValue(t) == Ok(v, st.ItemSep() + t')
    requires ParseItems(t') == Ok(vs, r)
    ensures ParseItems(t) == Ok([v] + vs, r)
  {
    hide ParseValue;
    var rest := st.ItemSep() + t';
    if st.Spaced? {
      SpaceBeforeValue(t');
      assert rest[1..] == " " + t';
      assert ParseItems(" " + t') == ParseItems(t');
    } else {
      assert rest[1..] == t';
    }
  }

  lemma LastMember(t: string, m: Member, r: string)
    requires ParseMember(t) == Ok(m, "}" + r)
    ensures ParseMembers(t) == Ok([m], r)
  {
    hide ParseMember;
    assert ("}" + r)[1..] == r;
  }

  lemma SpaceBeforeMember(t: string)
    ensures ParseMember(" " + t) == ParseMember(t)
  {
    assert (" " + t)[1..] == t;
  }

  lemma MoreMembers(t: string, m: Member, st: Style, t': string, ms: Dict, r: string)
    requires ParseMember(t) == Ok(m, st.ItemSep() + t')
    requires ParseMembers(t') == Ok(ms, r)
    ensures ParseMembers(t) == Ok([m] + ms, r)
  {
    hide ParseMember;
    var rest := st.ItemSep() + t';
    if st.Spaced? {
      SpaceBeforeMember(t');
      assert rest[1..] == " " + t';
      assert ParseMembers(" " + t') == ParseMembers(t');
    } else {
      assert rest[1..] == t';
    }
  }

  lemma {:induction false} ValueRoundTrip(v: Value, st: Style, r: string)
    requires Delimited(r)
    ensures ParseValue(Emit(v, st) + r) == Ok(v, r)
    decreases v, 2
  {
    match v
    case Arr(xs) => ArrayRoundTrip(v, st, r);
    case Obj(d) => ObjectRoundTrip(v, st, r);
    case _ => ScalarRoundTrip(v, st, r);
  }

  lemma ScalarRoundTrip(v: Value, st: Style, r: string)
    requires Delimited(r) && !v.Arr? && !v.Obj?
    ensures ParseValue(Emit(v, st) + r) == Ok(v, r)
  {
    match v
    case Int(i) => IntRoundTrip(i, st, r);
    case Str(s) => StrRoundTrip(s, st, r);
    case _ => LiteralRoundTrip(v, st, r);
  }

  lemma LiteralRoundTrip(v: Value, st: Style, r: string)
    requires v.Null? || v.Bool?
    ensures ParseValue(Emit(v, st) + r) == Ok(v, r)
  {
    var t := Emit(v, st) + r;
    assert t[|Emit(v, st)|..] == r;
  }

  lemma IntRoundTrip(i: int, st: Style, r: string)
    requires Delimited(r)
    ensures ParseValue(Emit(Int(i), st) + r) == Ok(Int(i), r)
  {
    hide ParseNat, EmitNat, ParseChars, ParseItems, ParseMembers;
    var t := Emit(Int(i), st) + r;
    NatRoundTrip(if i < 0 then -i else i, r);
    EmitNatDigits(if i < 0 then -i else i);
    if i < 0 { assert t[1..] == EmitNat(-i) + r; }
  }

  lemma StrRoundTrip(s: string, st: Style, r: string)
    ensures ParseValue(Emit(Str(s), st) + r) == Ok(Str(s), r)
  {
    hide ParseNat, ParseChars, Escape, ParseItems, ParseMembers;
    var t := Emit(Str(s), st) + r;
    assert t[1..] == Escape(s) + "\"" + r;
    StringRoundTrip(s, r);
  }

  lemma {:induction false} ArrayRoundTrip(v: Value, st: Style, r: string)
    requires v.Arr?
    ensures ParseValue(Emit(v, st) + r) == Ok(v, r)
    decreases v, 1
  {
    hide ParseNat, EmitNat, ParseChars, Escape, ParseItems, ParseMembers, EmitMembers;
    var t := Emit(v, st) + r;
    assert t[1..] == EmitItems(v.items, st) + "]" + r;
    if v.items == [] {
      assert t[1..] == "]" + r;
    } else {
      EmitHead(v.items[0], st);
      ItemsRoundTrip(v.items, st, r);
    }
  }

  lemma {:induction false} ObjectRoundTrip(v: Value, st: Style, r: string)
    requires v.Obj?
    ensures ParseValue(Emit(v, st) + r) == Ok(v, r)
    decreases v, 1
  {
    hide ParseNat, EmitNat, ParseChars, Escape, ParseItems, EmitItems, ParseMembers, EmitMember;
    var t := Emit(v, st) + r;
    assert t[1..] == EmitMembers(v.members, st) + "}" + r;
    if v.members == [] {
      assert t[1..] == "}" + r;
    } else {
      MembersHead(v.members, st);
      MembersRoundTrip(v.members, st, r);
    }
  }

  lemma {:induction false} ItemsRoundTrip(xs: seq<Value>, st: Style, r: string)
    requires xs != []
    ensures ParseItems(EmitItems(xs, st) + "]" + r) == Ok(xs, r)
    decreases xs, 0
  {
    hide ParseValue, ParseItems, Emit;
    var t := EmitItems(xs, st) + "]" + r;
    if |xs| == 1 {
      ValueRoundTrip(xs[0], st, "]" + r);
      assert t == Emit(xs[0], st) + ("]" + r);
      LastItem(t, xs[0], r);
      assert xs == [xs[0]];
    } else {
      var t' := EmitItems(xs[1..], st) + "]" + r;
      var sep := st.ItemSep();
      ValueRoundTrip(xs[0], st, sep + t');
      assert t == Emit(xs[0], st) + (sep + t');
      ItemsRoundTrip(xs[1..], st, r);
      MoreItems(t, xs[0], st, t', xs[1..], r);
      assert xs == [xs[0]] + xs[1..];
    }
  }

  lemma {:induction false} MemberRoundTrip(m: Member, st: Style, r: string)
    requires Delimited(r)
    ensures ParseMember(EmitMember(m, st) + r) == Ok(m, r)
    decreases m, 0
  {
    hide ParseValue, Emit, ParseChars, Escape;
    var t := EmitMember(m, st) + r;
    var value := Emit(m.value, st) + r;
    var sep := st.KeySep();
    assert t[1..] == Escape(m.key) + "\"" + (sep + value);
    StringRoundTrip(m.key, sep + value);
    ValueRoundTrip(m.value, st, r);
    if st.Spaced? {
      assert (sep + value)[1..] == " " + value;
      SpaceBeforeValue(value);
    } else {
      assert (sep + value)[1..] == value;
    }
  }

  lemma {:induction false} MembersRoundTrip(d: Dict, st: Style, r: string)
    requires d != []
    ensures ParseMembers(EmitMembers(d, st) + "}" + r) == Ok(d, r)
    decreases d, 0
  {
    hide ParseMember, ParseMembers, EmitMember;
    var t := EmitMembers(d, st) + "}" + r;
    if |d| == 1 {
      MemberRoundTrip(d[0], st, "}" + r);
      assert t == EmitMember(d[0], st) + ("}" + r);
      LastMember(t, d[0], r);
      assert d == [d[0]];
    } else {
      var t' := EmitMembers(d[1..], st) + "}" + r;
      var sep := st.ItemSep();
      MemberRoundTrip(d[0], st, sep + t');
      assert t == EmitMember(d[0], st) + (sep + t');
      MembersRoundTrip(d[1..], st, r);
      MoreMembers(t, d[0], st, t', d[1..], r);
      assert d == [d[0]] + d[1..];
    }
  }

  // `json.loads(json.dumps(v)) == v`, for either separator setting.
  lemma RoundTrip(v: Value, st: Style)
    ensures Parse(Emit(v, st)) == Some(v)
  {
    ValueRoundTrip(v, st, "");
    assert Emit(v, st) + "" == Emit(v, st);
  }

  // ---- the canonical text determines the value, and dict order does not matter ----

  lemma CanonicalParses(v: Value, st: Style)
    ensures Parse(Canonical(v, st)) == Some(Norm(v))
  {
    RoundTrip(Norm(v), st);
  }

  lemma CanonicalFaithful(v: Value, w: Value, st: Style)
    ensures Canonical(v, st) == Canonical(w, st) <==> Same(v, w)
  {
    CanonicalParses(v, st);
    CanonicalParses(w, st);
    NormSame(v, w);
  }
}
