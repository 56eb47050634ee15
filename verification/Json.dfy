// JSON values as Python holds them, and `json.dumps` on them.
module Json {
  import opened Text

  // A dict is its list of items in insertion order; `Find` makes the last
  // item with a key the one that counts.  Floats are not part of the domain.
  datatype Value =
    | Null
    | Bool(b: bool)
    | Int(i: int)
    | Str(s: string)
    | Arr(items: seq<Value>)
    | Obj(members: Dict)

  datatype Member = Member(key: string, value: Value)

  type Dict = seq<Member>

  // ---- dict operations ----

  function Find(d: Dict, key: string): (i: int)
    ensures -1 <= i < |d|
    ensures i >= 0 ==> d[i].key == key
    ensures forall j :: i < j < |d| ==> d[j].key != key
  {
    if d == [] then -1
    else if d[|d| - 1].key == key then |d| - 1
    else Find(d[..|d| - 1], key)
  }

  predicate Has(d: Dict, key: string) {
    Find(d, key) >= 0
  }

  // `d.get(key)`
  function Get(d: Dict, key: string): Option<Value> {
    var i := Find(d, key);
    if i < 0 then None else Some(d[i].value)
  }

  // `d[key] = value`: an existing key keeps its place, a new one goes last.
  function Set(d: Dict, key: string, value: Value): Dict {
    var i := Find(d, key);
    if i < 0 then d + [Member(key, value)] else d[i := Member(key, value)]
  }

  // `d.update(e)`, and `{**d, **e}`
  function Update(d: Dict, e: Dict): Dict
    decreases |e|
  {
    if e == [] then d else Update(Set(d, e[0].key, e[0].value), e[1..])
  }

  // What is left of d after `d.pop(key, ...)`.
  function Without(d: Dict, key: string): (r: Dict)
    ensures |r| <= |d|
  {
    if d == [] then []
    else if d[|d| - 1].key == key then Without(d[..|d| - 1], key)
    else Without(d[..|d| - 1], key) + [d[|d| - 1]]
  }

  lemma {:induction false} FindUnique(d: Dict, key: string, i: nat)
    requires i < |d| && d[i].key == key
    requires forall j :: i < j < |d| ==> d[j].key != key
    ensures Find(d, key) == i
  {
  }

  lemma SetGet(d: Dict, key: string, value: Value, other: string)
    ensures Get(Set(d, key, value), other) == if other == key then Some(value) else Get(d, other)
  {
    var i, r, o := Find(d, key), Set(d, key, value), Find(d, other);
    if other == key {
      FindUnique(r, key, if i < 0 then |d| else i);
    } else if o >= 0 {
      FindUnique(r, other, o);
    }
  }

  lemma {:induction false} UpdateGet(d: Dict, e: Dict, key: string)
    ensures Get(Update(d, e), key) == if Has(e, key) then Get(e, key) else Get(d, key)
    decreases |e|
  {
    if e != [] {
      var d' := Set(d, e[0].key, e[0].value);
      UpdateGet(d', e[1..], key);
      SetGet(d, e[0].key, e[0].value, key);
      assert e == [e[0]] + e[1..];
      hide Set;
      FirstGet(e, key);
    }
  }

  lemma FirstGet(e: Dict, key: string)
    requires e != []
    ensures Has(e, key) <==> e[0].key == key || Has(e[1..], key)
    ensures Has(e[1..], key) ==> Get(e, key) == Get(e[1..], key)
    ensures e[0].key == key && !Has(e[1..], key) ==> Get(e, key) == Some(e[0].value)
  {
    assert forall j :: 1 <= j < |e| ==> e[j] == e[1..][j - 1];
    if Has(e[1..], key) {
      FindUnique(e, key, Find(e[1..], key) + 1);
    } else if e[0].key == key {
      FindUnique(e, key, 0);
    }
  }

  lemma {:induction false} WithoutGet(d: Dict, key: string, other: string)
    ensures Get(Without(d, key), other) == if other == key then None else Get(d, other)
  {
    if d != [] {
      var last := d[|d| - 1];
      var r := Without(d[..|d| - 1], key);
      WithoutGet(d[..|d| - 1], key, other);
      if last.key != key {
        assert (r + [last])[..|r|] == r;
      }
    }
  }

  // ---- equality of JSON values, dict order aside ----

  ghost predicate Same(v: Value, w: Value)
    decreases v
  {
    match v
    case Arr(xs) =>
      w.Arr? && |xs| == |w.items| && forall i :: 0 <= i < |xs| ==> Same(xs[i], w.items[i])
    case Obj(d) =>
      && w.Obj?
      && (forall key :: Has(d, key) <==> Has(w.members, key))
      && (forall key | Has(d, key) ::
            Has(w.members, key) && Same(d[Find(d, key)].value, w.members[Find(w.members, key)].value))
    case _ => v == w
  }

  ghost predicate SameDict(d: Dict, e: Dict) {
    Same(Obj(d), Obj(e))
  }

  function Keys(d: Dict): seq<string> {
    seq(|d|, i requires 0 <= i < |d| => d[i].key)
  }

  lemma KeysHas(d: Dict, key: string)
    ensures key in Keys(d) <==> Has(d, key)
  {
    if key in Keys(d) {
      var i :| 0 <= i < |d| && Keys(d)[i] == key;
      assert d[i].key == key;
    }
    if Has(d, key) {
      assert Keys(d)[Find(d, key)] == key;
    }
  }

  // The keys of d in the order `sort_keys=True` prints them.
  function SortedKeys(d: Dict): (r: seq<string>)
    ensures Increasing(r)
    ensures forall key :: key in r <==> Has(d, key)
  {
    var r := SortedSet(Keys(d));
    assert forall key :: key in r <==> Has(d, key) by {
      forall key ensures key in r <==> Has(d, key) { KeysHas(d, key); }
    }
    r
  }

  // What `sort_keys=True` makes of a value before printing it.
  function Norm(v: Value): Value
    decreases v
  {
    match v
    case Arr(xs) => Arr(seq(|xs|, i requires 0 <= i < |xs| => Norm(xs[i])))
    case Obj(d) =>
      var keys := SortedKeys(d);
      Obj(seq(|keys|, i requires 0 <= i < |keys| =>
        assert keys[i] in keys;
        Member(keys[i], Norm(d[Find(d, keys[i])].value))))
    case _ => v
  }

  // Norm is a complete invariant: it forgets dict order and nothing else.
  lemma {:induction false} NormSame(v: Value, w: Value)
    ensures Norm(v) == Norm(w) <==> Same(v, w)
    decreases v
  {
    match v
    case Arr(xs) =>
      if w.Arr? {
        assert |Norm(v).items| == |xs| && |Norm(w).items| == |w.items|;
        if |xs| == |w.items| { NormSameItems(v, w); }
      }
    case Obj(d) =>
      if w.Obj? { NormSameMembers(v, w); }
    case _ =>
  }

  lemma {:induction false} NormSameItems(v: Value, w: Value)
    requires v.Arr? && w.Arr? && |v.items| == |w.items|
    ensures Norm(v) == Norm(w) <==> Same(v, w)
    decreases v, 0
  {
    forall i | 0 <= i < |v.items|
      ensures Norm(v.items[i]) == Norm(w.items[i]) <==> Same(v.items[i], w.items[i])
    {
      NormSame(v.items[i], w.items[i]);
    }
    if Norm(v) == Norm(w) {
      forall i | 0 <= i < |v.items| ensures Norm(v.items[i]) == Norm(w.items[i]) {
        assert Norm(v).items[i] == Norm(w).items[i];
      }
    }
  }

  lemma {:induction false} NormSameMembers(v: Value, w: Value)
    requires v.Obj? && w.Obj?
    ensures Norm(v) == Norm(w) <==> Same(v, w)
    decreases v, 0
  {
    var d, e := v.members, w.members;
    forall key | Has(d, key) && Has(e, key)
      ensures Norm(d[Find(d, key)].value) == Norm(e[Find(e, key)].value)
         <==> Same(d[Find(d, key)].value, e[Find(e, key)].value)
    {
      NormSame(d[Find(d, key)].value, e[Find(e, key)].value);
    }
    var ks, ls := SortedKeys(d), SortedKeys(e);
    if Same(v, w) {
      IncreasingUnique(ks, ls);
      forall i | 0 <= i < |ks| ensures Norm(v).members[i] == Norm(w).members[i] {
        assert ks[i] in ks;
      }
      assert Norm(v).members == Norm(w).members;
    }
    if Norm(v) == Norm(w) {
      assert |ks| == |ls|;
      forall i | 0 <= i < |ks|
        ensures ks[i] == ls[i]
        ensures Has(d, ks[i]) && Has(e, ks[i])
        ensures Norm(d[Find(d, ks[i])].value) == Norm(e[Find(e, ks[i])].value)
      {
        assert ks[i] in ks && ls[i] in ls;
        assert Norm(v).members[i] == Norm(w).members[i];
      }
      assert ks == ls;
      forall key | Has(d, key) ensures Same(d[Find(d, key)].value, e[Find(e, key)].value) {
        var i :| 0 <= i < |ks| && ks[i] == key;
      }
    }
  }

  lemma SameReflexive(v: Value)
    ensures Same(v, v)
  {
    NormSame(v, v);
  }

  lemma SameTransitive(u: Value, v: Value, w: Value)
    requires Same(u, v) && Same(v, w)
    ensures Same(u, w)
  {
    NormSame(u, v);
    NormSame(v, w);
    NormSame(u, w);
  }

  // Dicts are the same when every key looks up to the same value.
  lemma SameDictByGet(d: Dict, e: Dict)
    requires forall key :: Has(d, key) <==> Has(e, key)
    requires forall key :: Has(d, key) ==> Get(d, key) == Get(e, key)
    ensures SameDict(d, e)
  {
    forall key | Has(d, key)
      ensures Same(d[Find(d, key)].value, e[Find(e, key)].value)
    {
      assert Get(d, key) == Get(e, key);
      SameReflexive(d[Find(d, key)].value);
    }
  }

  // ---- printing ----

  // The two separator settings in use: `(",", ":")` for the audit chain, the
  // default `(", ", ": ")` for attestations.
  datatype Style = Compact | Spaced {
    function ItemSep(): string { if Compact? then "," else ", " }
    function KeySep(): string { if Compact? then ":" else ": " }
  }

  function HexDigit(n: nat): char
    requires n < 16
  {
    if n < 10 then (48 + n) as char else (87 + n) as char
  }

  function Hex2(n: nat): string
    requires n < 0x100
  {
    [HexDigit(n / 16), HexDigit(n % 16)]
  }

  function Hex4(n: nat): (r: string)
    requires n < 0x10000
    ensures |r| == 4
  {
    Hex2(n / 0x100) + Hex2(n % 0x100)
  }

  // `ensure_ascii=True`: everything outside ' '..'~' is escaped, and a code
  // point beyond the basic plane becomes a surrogate pair.
  function EscapeChar(c: char): string {
    if c == '"' then "\\\""
    else if c == '\\' then "\\\\"
    else if c == '\n' then "\\n"
    else if c == '\r' then "\\r"
    else if c == '\t' then "\\t"
    else if c as int == 12 then "\\f"
    else if c as int == 8 then "\\b"
    else if ' ' <= c <= '~' then [c]
    else EscapeUnicode(c)
  }

  function EscapeUnicode(c: char): string {
    if c as int < 0x10000 then "\\u" + Hex4(c as int)
    else
      "\\u" + Hex4(HighSurrogate(c)) + "\\u" + Hex4(LowSurrogate(c))
  }

  function HighSurrogate(c: char): (n: nat)
    requires c as int >= 0x10000
    ensures 0xD800 <= n < 0xDC00
  {
    0xD800 + (c as int - 0x10000) / 1024
  }

  function LowSurrogate(c: char): (n: nat)
    requires c as int >= 0x10000
    ensures 0xDC00 <= n < 0xE000
  {
    0xDC00 + (c as int - 0x10000) % 1024
  }

  function Escape(s: string): string {
    if s == [] then "" else EscapeChar(s[0]) + Escape(s[1..])
  }

  function EmitString(s: string): string {
    "\"" + Escape(s) + "\""
  }

  function EmitNat(n: nat): string {
    if n < 10 then [(48 + n) as char] else EmitNat(n / 10) + [(48 + n % 10) as char]
  }

  function EmitInt(i: int): string {
    if i < 0 then "-" + EmitNat(-i) else EmitNat(i)
  }

  // `json.dumps` without sort_keys.
  function Emit(v: Value, st: Style): string
    decreases v, 0
  {
    match v
    case Null => "null"
    case Bool(b) => if b then "true" else "false"
    case Int(i) => EmitInt(i)
    case Str(s) => EmitString(s)
    case Arr(xs) => "[" + EmitItems(xs, st) + "]"
    case Obj(d) => "{" + EmitMembers(d, st) + "}"
  }

  function EmitItems(xs: seq<Value>, st: Style): string
    decreases xs, 0
  {
    if xs == [] then ""
    else if |xs| == 1 then Emit(xs[0], st)
    else Emit(xs[0], st) + st.ItemSep() + EmitItems(xs[1..], st)
  }

  function EmitMember(m: Member, st: Style): string
    decreases m, 0
  {
    EmitString(m.key) + st.KeySep() + Emit(m.value, st)
  }

  function EmitMembers(d: Dict, st: Style): string
    decreases d, 0
  {
    if d == [] then ""
    else if |d| == 1 then EmitMember(d[0], st)
    else EmitMember(d[0], st) + st.ItemSep() + EmitMembers(d[1..], st)
  }

  // `json.dumps(v, sort_keys=True, ...)`
  function Canonical(v: Value, st: Style): string {
    Emit(Norm(v), st)
  }

  // ---- the printed text ----

  // Printable ASCII, with blanks only if they are allowed.
  ghost predicate Clean(s: string, blanks: bool) {
    forall i :: 0 <= i < |s| ==> ' ' <= s[i] <= '~' && (blanks || s[i] != ' ')
  }

  // No string in the value has a blank.
  ghost predicate NoBlank(v: Value)
    decreases v
  {
    match v
    case Str(s) => ' ' !in s
    case Arr(xs) => forall i :: 0 <= i < |xs| ==> NoBlank(xs[i])
    case Obj(d) => forall i :: 0 <= i < |d| ==> ' ' !in d[i].key && NoBlank(d[i].value)
    case _ => true
  }

  lemma HexIsClean(n: nat)
    requires n < 0x10000
    ensures Clean(Hex4(n), false)
    ensures forall i :: 0 <= i < 4 ==> '0' <= Hex4(n)[i] <= '9' || 'a' <= Hex4(n)[i] <= 'f'
  {
  }

  lemma CharIsClean(c: char)
    ensures Clean(EscapeChar(c), c == ' ')
  {
    if c as int < 0x10000 {
      HexIsClean(c as int);
    } else {
      HexIsClean(HighSurrogate(c));
      HexIsClean(LowSurrogate(c));
    }
    hide Hex4;
  }

  lemma {:induction false} StringIsClean(s: string)
    ensures Clean(EmitString(s), ' ' in s)
  {
    EscapeIsClean(s);
  }

  lemma {:induction false} EscapeIsClean(s: string)
    ensures Clean(Escape(s), ' ' in s)
  {
    if s != [] {
      CharIsClean(s[0]);
      EscapeIsClean(s[1..]);
      hide EscapeChar;
    }
  }

  lemma {:induction false} NatIsClean(n: nat)
    ensures Clean(EmitNat(n), false)
  {
    if n >= 10 { NatIsClean(n / 10); }
  }

  // The text is printable ASCII; and in the compact style every blank in it is
  // one of the value's own.
  lemma {:induction false} EmitIsClean(v: Value, st: Style, blanks: bool)
    requires blanks || (st.Compact? && NoBlank(v))
    ensures Clean(Emit(v, st), blanks)
    decreases v, 0
  {
    match v
    case Str(s) => StringIsClean(s);
    case Int(i) => NatIsClean(if i < 0 then -i else i);
    case Arr(xs) => ItemsAreClean(xs, st, blanks);
    case Obj(d) => MembersAreClean(d, st, blanks);
    case _ =>
  }

  lemma {:induction false} ItemsAreClean(xs: seq<Value>, st: Style, blanks: bool)
    requires blanks || (st.Compact? && forall i :: 0 <= i < |xs| ==> NoBlank(xs[i]))
    ensures Clean(EmitItems(xs, st), blanks)
    decreases xs, 0
  {
    if xs != [] {
      EmitIsClean(xs[0], st, blanks);
      ItemsAreClean(xs[1..], st, blanks);
    }
  }

  lemma {:induction false} MemberIsClean(m: Member, st: Style, blanks: bool)
    requires blanks || (st.Compact? && ' ' !in m.key && NoBlank(m.value))
    ensures Clean(EmitMember(m, st), blanks)
    decreases m, 0
  {
    StringIsClean(m.key);
    EmitIsClean(m.value, st, blanks);
    hide EmitString, Emit;
  }

  lemma {:induction false} MembersAreClean(d: Dict, st: Style, blanks: bool)
    requires blanks || (st.Compact? && forall i :: 0 <= i < |d| ==> ' ' !in d[i].key && NoBlank(d[i].value))
    ensures Clean(EmitMembers(d, st), blanks)
    decreases d, 0
  {
    if d != [] {
      MemberIsClean(d[0], st, blanks);
      MembersAreClean(d[1..], st, blanks);
      hide EmitMember, NoBlank;
    }
  }

  // The short escapes, what needs none, and the long ones.
  lemma ShortEscapes()
    ensures EscapeChar('"') == "\\\"" && EscapeChar('\\') == "\\\\" && EscapeChar('\n') == "\\n"
    ensures EscapeChar('\r') == "\\r" && EscapeChar('\t') == "\\t"
    ensures EscapeChar(8 as char) == "\\b" && EscapeChar(12 as char) == "\\f"
    ensures EscapeChar('/') == "/" && EscapeChar('a') == "a"
  {
    hide EscapeUnicode;
  }

  lemma LongEscapes()
    ensures EscapeChar(0x7F as char) == "\\u007f"
    ensures EscapeChar(0xE9 as char) == "\\u00e9"
  {
    assert Hex4(0x7F) == "007f" && Hex4(0xE9) == "00e9";
  }

  lemma PairEscape()
    ensures EscapeChar(0x1F600 as char) == "\\ud83d\\ude00"
  {
    var c := 0x1F600 as char;
    assert HighSurrogate(c) == 0xD83D && LowSurrogate(c) == 0xDE00;
    assert Hex4(0xD83D) == "d83d" && Hex4(0xDE00) == "de00";
  }

  // One object, and its text in the two styles.
  const SAMPLE := Obj([Member("a", Null), Member("b", Arr([Bool(true), Int(-10)]))])

  lemma SampleText(st: Style)
    ensures Emit(SAMPLE, st)
         == "{\"a\"" + st.KeySep() + "null" + st.ItemSep() + "\"b\"" + st.KeySep() + "[true" + st.ItemSep() + "-10]}"
  {
    var a, b := Member("a", Null), Member("b", Arr([Bool(true), Int(-10)]));
    FirstMember(st);
    SecondMember(st);
    TwoMembers(a, b, st);
    hide EmitMember, EmitMembers;
    assert Emit(SAMPLE, st) == "{" + EmitMembers([a, b], st) + "}";
  }

  lemma TwoMembers(a: Member, b: Member, st: Style)
    ensures EmitMembers([a, b], st) == EmitMember(a, st) + st.ItemSep() + EmitMember(b, st)
  {
    hide EmitMember;
    assert [a, b][1..] == [b];
    assert EmitMembers([b], st) == EmitMember(b, st);
  }

  lemma FirstMember(st: Style)
    ensures EmitMember(Member("a", Null), st) == "\"a\"" + st.KeySep() + "null"
  {
    LetterText('a');
  }

  lemma SecondMember(st: Style)
    ensures EmitMember(Member("b", Arr([Bool(true), Int(-10)])), st)
         == "\"b\"" + st.KeySep() + "[true" + st.ItemSep() + "-10]"
  {
    LetterText('b');
    TwoItems(st);
    hide EmitString, EmitItems;
    assert Emit(Arr([Bool(true), Int(-10)]), st) == "[" + EmitItems([Bool(true), Int(-10)], st) + "]";
  }

  lemma TwoItems(st: Style)
    ensures EmitItems([Bool(true), Int(-10)], st) == "true" + st.ItemSep() + "-10"
  {
    assert EmitNat(1) == "1" && EmitNat(10) == "10";
    hide EmitNat;
    assert [Bool(true), Int(-10)][1..] == [Int(-10)];
    assert EmitItems([Int(-10)], st) == "-10";
  }

  lemma LetterText(c: char)
    requires 'a' <= c <= 'z'
    ensures EmitString([c]) == ['"', c, '"']
  {
    assert [c][1..] == "";
    assert EscapeChar(c) == [c];
    assert Escape([c]) == [c];
  }

  lemma StylesAreThese()
    ensures Emit(SAMPLE, Compact) == "{\"a\":null,\"b\":[true,-10]}"
    ensures Emit(SAMPLE, Spaced) == "{\"a\": null, \"b\": [true, -10]}"
  {
    SampleText(Compact);
    SampleText(Spaced);
    hide Emit, SAMPLE;
  }

  // The keys of a printed object increase, each once.
  lemma NormIsSorted(d: Dict)
    ensures Increasing(Keys(Norm(Obj(d)).members))
    ensures forall key :: key in Keys(Norm(Obj(d)).members) <==> Has(d, key)
  {
    assert Keys(Norm(Obj(d)).members) == SortedKeys(d);
  }

  // Sorting the keys changes nothing else.
  lemma {:induction false} NormIsSame(v: Value)
    ensures Same(Norm(v), v)
    decreases v
  {
    match v
    case Arr(xs) =>
      forall i | 0 <= i < |xs| ensures Same(Norm(xs[i]), xs[i]) { NormIsSame(xs[i]); }
    case Obj(d) =>
      var m, keys := Norm(v).members, SortedKeys(d);
      NormIsSorted(d);
      forall key ensures Has(m, key) <==> Has(d, key) { KeysHas(m, key); }
      forall key | Has(d, key) && Has(m, key) ensures Same(m[Find(m, key)].value, d[Find(d, key)].value) {
        assert keys[Find(m, key)] == key;
        NormIsSame(d[Find(d, key)].value);
      }
    case _ =>
  }
}
