/**
 * The value model: the argument values a CommandScript command carries
 * (`Selector`, `Range`, `JointItem`, plain objects, arrays, numbers and the two
 * kinds of string) and the two ways the compiler turns them into MCFunction
 * text: `stringify` (src/index.js:84-95), and JavaScript's `String(v)`, which
 * goes through each class's `toString` (src/index.js:35-44, 54-56, 67-74).
 */
module Values {

  import opened Outcomes
  import opened Strings

  /**
   * A command argument. `Token` is a primitive JavaScript string, `Quoted` a boxed
   * `String` object (the parser's marker for quoted text), `Object` a plain object
   * given by the list `Object.entries` returns, `Sel` a `Selector` whose `args` are
   * `null` (Absent) or an object, `Rng` a `Range` whose unbounded ends are None, and
   * `Joint` a `JointItem` whose `state` and `nbt` are `undefined` when absent.
   */
  datatype Value =
    | Token(text: string)
    | Quoted(text: string)
    | Number(num: int)
    | Array(items: seq<Value>)
    | Object(fields: seq<Entry>)
    | Sel(target: string, filters: Fields)
    | Rng(min: Option<int>, max: Option<int>)
    | Joint(item: string, state: Fields, nbt: Option<Value>)

  /** One `[key, value]` pair of `Object.entries`. */
  datatype Entry = Entry(key: string, val: Value)

  /** An optional object: `null`/`undefined` (Absent), or the entries of an object. */
  datatype Fields = Absent | Present(entries: seq<Entry>)

  /** `.replace(/[\r\n]+/g, "")`: every carriage return and line feed removed. */
  function StripLineBreaks(s: string): (r: string)
    ensures '\r' !in r && '\n' !in r
    ensures |r| <= |s|
    ensures forall c :: c != '\r' && c != '\n' ==> (c in r <==> c in s)
  {
    if |s| == 0 then ""
    else if s[0] == '\r' || s[0] == '\n' then StripLineBreaks(s[1..])
    else [s[0]] + StripLineBreaks(s[1..])
  }

  lemma {:induction false} StripLineBreaksUnchanged(s: string)
    requires '\r' !in s && '\n' !in s
    ensures StripLineBreaks(s) == s
  {
    if |s| > 0 {
      StripLineBreaksUnchanged(s[1..]);
      assert [s[0]] + s[1..] == s;
    }
  }

  /** Removing line breaks works piece by piece: the text's own characters keep their order. */
  lemma {:induction false} StripLineBreaksConcat(a: string, b: string)
    ensures StripLineBreaks(a + b) == StripLineBreaks(a) + StripLineBreaks(b)
    decreases |a|
  {
    if |a| == 0 {
      assert a + b == b;
    } else {
      StripLineBreaksConcat(a[1..], b);
      assert (a + b)[0] == a[0] && (a + b)[1..] == a[1..] + b;
      if a[0] == '\r' || a[0] == '\n' {
      } else {
        assert [a[0]] + (StripLineBreaks(a[1..]) + StripLineBreaks(b))
            == ([a[0]] + StripLineBreaks(a[1..])) + StripLineBreaks(b);
      }
    }
  }

  /** A single character is removed exactly when it is a line break. */
  lemma StripLineBreaksChar(c: char)
    ensures StripLineBreaks([c]) == if c == '\r' || c == '\n' then "" else [c]
  {
    assert [c][1..] == "";
  }

  function HexDigit(d: nat): char
    requires d < 16
  {
    "0123456789abcdef"[d]
  }

  /** How `JSON.stringify` writes one character inside a string literal. */
  function EscapeChar(c: char): string
  {
    if c == '"' then "\\\""
    else if c == '\\' then "\\\\"
    else if c == '\U{8}' then "\\b"
    else if c == '\U{C}' then "\\f"
    else if c == '\n' then "\\n"
    else if c == '\r' then "\\r"
    else if c == '\t' then "\\t"
    else if c < ' ' then "\\u00" + [HexDigit(c as int / 16), HexDigit(c as int % 16)]
    else [c]
  }

  function Escape(s: string): string
  {
    if |s| == 0 then "" else EscapeChar(s[0]) + Escape(s[1..])
  }

  /** `JSON.stringify(s)` of a string. */
  function JsonQuote(s: string): string
  {
    "\"" + Escape(s) + "\""
  }

  function HexValue(c: char): Option<nat>
  {
    if '0' <= c <= '9' then Some(c as int - '0' as int)
    else if 'a' <= c <= 'f' then Some(c as int - 'a' as int + 10)
    else if 'A' <= c <= 'F' then Some(c as int - 'A' as int + 10)
    else None
  }

  /** The four hex digits of a `\u` escape, read as a character. */
  function UnicodeEscape(h: string): Option<char>
    requires |h| == 4
  {
    match (HexValue(h[0]), HexValue(h[1]), HexValue(h[2]), HexValue(h[3]))
    case (Some(a), Some(b), Some(c), Some(d)) =>
      var k := ((a * 16 + b) * 16 + c) * 16 + d;
      if k < 0xD800 then Some(k as char) else None
    case _ => None
  }

  /** The body of a JSON string literal decoded; None for text JSON does not allow. */
  function Unescape(t: string): Option<string>
    decreases |t|
  {
    if |t| == 0 then Some("")
    else if t[0] == '\\' then
      if |t| < 2 then None
      else
        var e := t[1];
        var simple :=
          if e == '"' then Some('"') else if e == '\\' then Some('\\') else if e == '/' then Some('/')
          else if e == 'b' then Some('\U{8}') else if e == 'f' then Some('\U{C}')
          else if e == 'n' then Some('\n') else if e == 'r' then Some('\r')
          else if e == 't' then Some('\t') else None;
        if simple.Some? then
          match Unescape(t[2..])
          case None => None
          case Some(rest) => Some([simple.value] + rest)
        else if e == 'u' && |t| >= 6 then
          match (UnicodeEscape(t[2..6]), Unescape(t[6..]))
          case (Some(c), Some(rest)) => Some([c] + rest)
          case _ => None
        else None
    else if t[0] == '"' || t[0] < ' ' then None
    else
      match Unescape(t[1..])
      case None => None
      case Some(rest) => Some([t[0]] + rest)
  }

  /** A JSON string literal decoded (`JSON.parse` of a string); None when `t` is not one. */
  function JsonUnquote(t: string): Option<string>
  {
    if |t| >= 2 && t[0] == '"' && t[|t| - 1] == '"' then Unescape(t[1..|t| - 1]) else None
  }

  lemma EscapeCharDecodes(c: char, rest: string)
    ensures Unescape(EscapeChar(c) + rest)
         == match Unescape(rest) case None => None case Some(r) => Some([c] + r)
  {
    if c == '"' || c == '\\' || c == '\U{8}' || c == '\U{C}' || c == '\n' || c == '\r' || c == '\t' {
      ShortEscapeDecodes(c, rest);
    } else if c < ' ' {
      UnicodeEscapeDecodes(c, rest);
    } else {
      assert (EscapeChar(c) + rest)[1..] == rest;
    }
  }

  /** A two-character escape such as `\n` decodes to its character. */
  lemma ShortEscapeDecodes(c: char, rest: string)
    requires c == '"' || c == '\\' || c == '\U{8}' || c == '\U{C}' || c == '\n' || c == '\r' || c == '\t'
    ensures Unescape(EscapeChar(c) + rest)
         == match Unescape(rest) case None => None case Some(r) => Some([c] + r)
  {
    assert (EscapeChar(c) + rest)[2..] == rest;
  }

  /** A `\u00XX` escape of a control character decodes to it. */
  lemma UnicodeEscapeDecodes(c: char, rest: string)
    requires c < ' ' && c != '\U{8}' && c != '\U{C}' && c != '\n' && c != '\r' && c != '\t'
    ensures Unescape(EscapeChar(c) + rest)
         == match Unescape(rest) case None => None case Some(r) => Some([c] + r)
  {
    var t := EscapeChar(c) + rest;
    var k := c as int;
    assert t[2..6] == "00" + [HexDigit(k / 16), HexDigit(k % 16)];
    assert t[6..] == rest;
    assert UnicodeEscape(t[2..6]) == Some(c);
  }

  lemma {:induction false} EscapeDecodes(s: string)
    ensures Unescape(Escape(s)) == Some(s)
  {
    if |s| > 0 {
      EscapeDecodes(s[1..]);
      EscapeCharDecodes(s[0], Escape(s[1..]));
      assert [s[0]] + s[1..] == s;
    }
  }

  /** `JSON.stringify` of a string is a JSON string literal that decodes back to the string. */
  lemma JsonQuoteRoundTrip(s: string)
    ensures JsonUnquote(JsonQuote(s)) == Some(s)
  {
    var t := JsonQuote(s);
    assert t[1..|t| - 1] == Escape(s);
    EscapeDecodes(s);
  }

  /** The `key:value` text of one entry; `quoteKeys` selects `stringify`'s rule that a key
      holding a space is written in double quotes (src/index.js:91). */
  function EntryText(e: Entry, quoteKeys: bool): (r: string)
    ensures quoteKeys && ' ' in e.key ==> |r| > |e.key| + 2 && r[..|e.key| + 3] == "\"" + e.key + "\":"
    ensures !(quoteKeys && ' ' in e.key) ==> |r| > |e.key| && r[..|e.key| + 1] == e.key + ":"
    ensures var val := Stringify(e.val, true);
            |r| >= |val| && r[|r| - |val|..] == val
    ensures |r| == (if quoteKeys && ' ' in e.key then |e.key| + 2 else |e.key|) + 1 + |Stringify(e.val, true)|
    decreases e, 0
  {
    (if quoteKeys && ' ' in e.key then "\"" + e.key + "\"" else e.key) + ":" + Stringify(e.val, true)
  }

  /** The comma-joined `key:value` texts of a list of entries. */
  function EntriesText(es: seq<Entry>, quoteKeys: bool): string
    decreases es
  {
    Join(seq(|es|, i requires 0 <= i < |es| => EntryText(es[i], quoteKeys)), ",")
  }

  /** `stringify(e, quote)` (src/index.js:84-95). A boxed string is a JSON string literal of
      its text when `quote` holds and its bare text otherwise; an array is bracketed; a plain
      object, a Range and a JointItem are braced; everything else has no line break. */
  function Stringify(v: Value, quote: bool): (r: string)
    ensures v.Quoted? && quote ==> JsonUnquote(r) == Some(v.text)
    ensures v.Quoted? && !quote ==> r == v.text
    ensures v.Array? ==> |r| >= 2 && r[0] == '[' && r[|r| - 1] == ']'
    ensures v.Object? || v.Rng? || v.Joint? ==> |r| >= 2 && r[0] == '{' && r[|r| - 1] == '}'
    ensures v.Token? || v.Number? || v.Sel? ==> '\r' !in r && '\n' !in r
    decreases v, 2
  {
    match v
    case Quoted(s) => JsonQuoteRoundTrip(s); if quote then JsonQuote(s) else s
    case Array(items) =>
      "[" + Join(seq(|items|, i requires 0 <= i < |items| => Stringify(items[i], true)), ",") + "]"
    case Object(fields) => "{" + EntriesText(fields, true) + "}"
    // A Range and a JointItem are plain objects to `stringify`: their fields are listed.
    case Rng(min, max) =>
      "{min:" + (if min.Some? then IntText(min.value) else "-Infinity")
      + ",max:" + (if max.Some? then IntText(max.value) else "Infinity") + "}"
    case Joint(item, state, nbt) =>
      "{item:" + StripLineBreaks(item)
      + ",state:" + (if state.Present? then "{" + EntriesText(state.entries, true) + "}" else "undefined")
      + ",nbt:" + (if nbt.Some? then Stringify(nbt.value, true) else "undefined") + "}"
    case Token(s) => StripLineBreaks(s)
    case Number(k) => StripLineBreaks(IntText(k))
    case Sel(target, filters) => StripLineBreaks(SelectorText(target, filters))
  }

  /** `Selector.prototype.toString` (src/index.js:35-44): a target of more than one character
      with `null` args is returned as it is; any other selector starts with the `@` marker and
      the target, and is longer exactly when it has a non-empty filter list. */
  function SelectorText(target: string, filters: Fields): (r: string)
    ensures |target| > 1 && filters.Absent? ==> r == target
    ensures !(|target| > 1 && filters.Absent?) ==>
              |r| > |target| && r[0] == '@' && r[1..|target| + 1] == target
              && (r == "@" + target <==> filters.Absent? || filters.entries == [])
    ensures filters.Present? && filters.entries != [] ==> r[|target| + 1] == '[' && r[|r| - 1] == ']'
    decreases filters, 1
  {
    if |target| > 1 && filters.Absent? then target
    else if filters.Present? && |filters.entries| > 0 then
      "@" + target + "[" + EntriesText(filters.entries, false) + "]"
    else
      assert ("@" + target)[1..|target| + 1] == target;
      "@" + target
  }

  /** `Range.prototype.toString` (src/index.js:54-56): a bound is written only when finite,
      and the text reads back as the range. */
  function RangeText(min: Option<int>, max: Option<int>): (r: string)
    ensures min.None? && max.None? ==> r == ".."
    ensures ParseRange(r) == Some((min, max))
  {
    var a := if min.Some? then IntText(min.value) else "";
    var b := if max.Some? then IntText(max.value) else "";
    RangeReadsBack(a, b, min, max);
    a + ".." + b
  }

  /** A bound as `RangeText` writes it, read back: the empty text is an unbounded end. */
  function ParseBound(t: string): Option<Option<int>>
  {
    if t == "" then Some(None)
    else match ParseInt(t)
         case None => None
         case Some(k) => Some(Some(k))
  }

  /** The inverse of `RangeText`: the text around the `..` separator, read as two bounds. */
  function ParseRange(s: string): Option<(Option<int>, Option<int>)>
  {
    var ps := Split(s, '.');
    if |ps| != 3 || ps[1] != "" then None
    else match (ParseBound(ps[0]), ParseBound(ps[2]))
         case (Some(lo), Some(hi)) => Some((lo, hi))
         case _ => None
  }

  lemma BoundReadsBack(t: string, bound: Option<int>)
    requires t == if bound.Some? then IntText(bound.value) else ""
    ensures ParseBound(t) == Some(bound) && '.' !in t
  {
    if bound.Some? {
      IntTextAvoids(bound.value, '.');
      IntTextRoundTrip(bound.value);
    }
  }

  lemma RangeReadsBack(a: string, b: string, min: Option<int>, max: Option<int>)
    requires a == if min.Some? then IntText(min.value) else ""
    requires b == if max.Some? then IntText(max.value) else ""
    ensures ParseRange(a + ".." + b) == Some((min, max))
  {
    BoundReadsBack(a, min);
    BoundReadsBack(b, max);
    RangeSplits(a, b);
  }

  /** Two texts without a dot around `..` split on dots into the two texts around an empty one. */
  lemma RangeSplits(a: string, b: string)
    requires '.' !in a && '.' !in b
    ensures Split(a + ".." + b, '.') == [a, "", b]
  {
    var tail := ['.'] + b;
    assert a + ".." + b == a + ['.'] + tail;
    SplitAtSeparator(a, tail, '.');
    SplitSeparatorCons(b, '.');
    SplitNoSeparator(b, '.');
  }

  /** `JointItem.prototype.toString` (src/index.js:67-74): the item first, then the bracketed
      state only when there is one, then the nbt only when there is one. */
  function JointText(item: string, state: Fields, nbt: Option<Value>): (r: string)
    ensures |r| >= |item| && r[..|item|] == item
    ensures state.Present? ==> |r| > |item| && r[|item|] == '['
    ensures state.Absent? && nbt.Some? ==> r == item + Stringify(nbt.value, true)
    ensures state.Absent? && nbt.None? ==> r == item
    ensures var tail := if nbt.Some? then Stringify(nbt.value, true) else "";
            |r| >= |item| + |tail| && r[|r| - |tail|..] == tail
            && (state.Present? ==> |r| >= |item| + |tail| + 2 && r[|r| - |tail| - 1] == ']')
    decreases state, nbt
  {
    item
    + (if state.Present? then "[" + EntriesText(state.entries, false) + "]" else "")
    + (if nbt.Some? then Stringify(nbt.value, true) else "")
  }

  /** JavaScript's `String(v)`: an array joins its elements with commas, a plain object is
      `[object Object]`, a boxed string is its text with no quotes, and the classes use
      `toString`. */
  function Display(v: Value): (r: string)
    ensures v.Token? || v.Quoted? ==> r == v.text
    ensures v.Object? ==> r == "[object Object]"
    ensures v.Array? && v.items == [] ==> r == ""
    decreases v, 3
  {
    match v
    case Token(s) => s
    case Quoted(s) => s
    case Number(k) => IntText(k)
    case Array(items) => Join(seq(|items|, i requires 0 <= i < |items| => Display(items[i])), ",")
    case Object(_) => "[object Object]"
    case Sel(target, filters) => SelectorText(target, filters)
    case Rng(min, max) => RangeText(min, max)
    case Joint(item, state, nbt) => JointText(item, state, nbt)
  }

  /** `stringify` never renders a Range through `Range.prototype.toString`: it takes the
      object branch, so its text starts with `{`, which `toString` never does. */
  lemma StringifyRangeIsNotToString(min: Option<int>, max: Option<int>)
    ensures Stringify(Rng(min, max), true) != RangeText(min, max)
  {
    var r := RangeText(min, max);
    if min.Some? {
      assert r[0] == IntText(min.value)[0];
    } else {
      assert r[0] == '.';
    }
  }

  /** One bound of a Range as `stringify` writes it: the number, or the infinity that stands
      for a missing bound (`-Infinity` for `min`, `Infinity` for `max`). */
  function BoundText(b: Option<int>, unbounded: string): string
  {
    if b.Some? then IntText(b.value) else unbounded
  }

  /** Inside the braces of a stringified Range, splitting on `,` gives its two fields in
      order, `min:` and `max:` each followed by its bound; the decimal text of a bound reads
      back as the bound (IntTextRoundTrip). */
  lemma StringifyRangeReadsBack(min: Option<int>, max: Option<int>)
    ensures var r := Stringify(Rng(min, max), true);
            |r| >= 2
            && Split(r[1..|r| - 1], ',') == ["min:" + BoundText(min, "-Infinity"), "max:" + BoundText(max, "Infinity")]
  {
    var lo := BoundText(min, "-Infinity");
    var hi := BoundText(max, "Infinity");
    RangeFields(min, max);
    NoCommaInBound(min, "-Infinity");
    NoCommaInBound(max, "Infinity");
    FieldsBetweenBraces(lo, hi);
  }

  lemma RangeFields(min: Option<int>, max: Option<int>)
    ensures Stringify(Rng(min, max), true)
            == "{min:" + BoundText(min, "-Infinity") + ",max:" + BoundText(max, "Infinity") + "}"
  {
  }

  /** The two fields between the braces split apart at the comma. */
  lemma FieldsBetweenBraces(lo: string, hi: string)
    requires ',' !in lo && ',' !in hi
    ensures var r := "{min:" + lo + ",max:" + hi + "}";
            |r| >= 2 && Split(r[1..|r| - 1], ',') == ["min:" + lo, "max:" + hi]
  {
    var a := "min:" + lo;
    var b := "max:" + hi;
    var r := "{min:" + lo + ",max:" + hi + "}";
    assert r == "{" + (a + "," + b) + "}";
    assert r[1..|r| - 1] == a + "," + b;
    assert Join([a, b], ",") == a + "," + b;
    SplitJoin([a, b], ',');
  }

  lemma NoCommaInBound(b: Option<int>, unbounded: string)
    requires ',' !in unbounded
    ensures ',' !in BoundText(b, unbounded)
  {
    if b.Some? {
      var t := IntText(b.value);
      assert forall i :: 0 <= i < |t| ==> t[i] != ',';
    }
  }

  /** A Range with neither bound is written as the two infinities. */
  lemma StringifyUnboundedRange()
    ensures Stringify(Rng(None, None), true) == "{min:-Infinity,max:Infinity}"
  {
    assert Stringify(Rng(None, None), true) == "{min:" + "-Infinity" + ",max:" + "Infinity" + "}";
  }

  /** `stringify` renders a JointItem through the object branch too: the text lists its
      fields, item first, instead of `JointItem.prototype.toString`. */
  lemma StringifyJointListsFields(item: string, state: Fields, nbt: Option<Value>)
    ensures var r := Stringify(Joint(item, state, nbt), true);
            var head := "{item:" + StripLineBreaks(item) + ",state:";
            |r| > |head| && r[..|head|] == head
  {
    var head := "{item:" + StripLineBreaks(item) + ",state:";
    var st := if state.Present? then "{" + EntriesText(state.entries, true) + "}" else "undefined";
    var nb := if nbt.Some? then Stringify(nbt.value, true) else "undefined";
    JointFields(item, state, nbt);
    Prefixed(head, st, nb);
  }

  /** The object branch's text of a JointItem, piece by piece. */
  lemma JointFields(item: string, state: Fields, nbt: Option<Value>)
    ensures Stringify(Joint(item, state, nbt), true)
            == "{item:" + StripLineBreaks(item) + ",state:"
               + (if state.Present? then "{" + EntriesText(state.entries, true) + "}" else "undefined")
               + ",nbt:" + (if nbt.Some? then Stringify(nbt.value, true) else "undefined") + "}"
  {
  }

  lemma Prefixed(head: string, st: string, nb: string)
    ensures var r := head + st + ",nbt:" + nb + "}";
            |r| > |head| && r[..|head|] == head
  {
    var r := head + st + ",nbt:" + nb + "}";
    assert r == head + (st + ",nbt:" + nb + "}");
  }

  /** A bare JointItem is written with both absent parts as `undefined`. */
  lemma StringifyBareJoint(item: string)
    ensures Stringify(Joint(item, Absent, None), true)
            == "{item:" + StripLineBreaks(item) + ",state:undefined,nbt:undefined}"
  {
    var head := "{item:" + StripLineBreaks(item);
    assert Stringify(Joint(item, Absent, None), true) == head + ",state:" + "undefined" + ",nbt:" + "undefined" + "}";
    UndefinedFields(head);
  }

  lemma UndefinedFields(head: string)
    ensures head + ",state:" + "undefined" + ",nbt:" + "undefined" + "}" == head + ",state:undefined,nbt:undefined}"
  {
    assert head + ",state:" + "undefined" + ",nbt:" + "undefined" + "}"
        == head + (",state:" + "undefined" + ",nbt:" + "undefined" + "}");
  }

  /** The quote flag only matters for a boxed string at the top: nested values are always
      rendered with quoting on (src/index.js:89, 91). */
  lemma QuoteFlagTopLevelOnly(v: Value)
    requires !v.Quoted?
    ensures Stringify(v, false) == Stringify(v, true)
  {
  }

  /** A string, a number or a selector is written as `String(v)` with its line breaks removed;
      a number has none to remove. */
  lemma StringifyPlainIsDisplay(v: Value, quote: bool)
    requires v.Token? || v.Number? || v.Sel?
    ensures Stringify(v, quote) == StripLineBreaks(Display(v))
    ensures v.Number? ==> Stringify(v, quote) == IntText(v.num)
  {
    if v.Number? {
      IntTextAvoids(v.num, '\r');
      IntTextAvoids(v.num, '\n');
      StripLineBreaksUnchanged(IntText(v.num));
    }
  }

  /** The text of each element of an array, as `stringify` writes it. */
  function ItemTexts(items: seq<Value>): (r: seq<string>)
    ensures |r| == |items|
  {
    seq(|items|, i requires 0 <= i < |items| => Stringify(items[i], true))
  }

  /** The text of each entry of an object, as `stringify` (`quoteKeys`) or `toString` writes it. */
  function EntryTexts(es: seq<Entry>, quoteKeys: bool): (r: seq<string>)
    ensures |r| == |es|
  {
    seq(|es|, i requires 0 <= i < |es| => EntryText(es[i], quoteKeys))
  }

  /** Inside the brackets of a stringified array are the elements' own texts, comma-separated:
      splitting on `,` gives them back as long as none of them holds a comma. */
  lemma ArrayReadsBack(items: seq<Value>, quote: bool)
    requires |items| > 0
    requires forall i :: 0 <= i < |items| ==> ',' !in Stringify(items[i], true)
    ensures var r := Stringify(Array(items), quote);
            Split(r[1..|r| - 1], ',') == ItemTexts(items)
  {
    var r := Stringify(Array(items), quote);
    assert r == "[" + Join(ItemTexts(items), ",") + "]";
    assert r[1..|r| - 1] == Join(ItemTexts(items), ",");
    SplitJoin(ItemTexts(items), ',');
  }

  /** Inside the braces of a stringified object are its entries, `key:value` each, in order. */
  lemma ObjectReadsBack(fields: seq<Entry>, quote: bool)
    requires |fields| > 0
    requires forall i :: 0 <= i < |fields| ==> ',' !in EntryText(fields[i], true)
    ensures var r := Stringify(Object(fields), quote);
            Split(r[1..|r| - 1], ',') == EntryTexts(fields, true)
  {
    var r := Stringify(Object(fields), quote);
    assert EntriesText(fields, true) == Join(EntryTexts(fields, true), ",");
    assert r == "{" + Join(EntryTexts(fields, true), ",") + "}";
    assert r[1..|r| - 1] == Join(EntryTexts(fields, true), ",");
    SplitJoin(EntryTexts(fields, true), ',');
  }

  /** Between `@target[` and `]` are the selector's arguments, `key:value` each, in order. */
  lemma SelectorReadsBack(target: string, entries: seq<Entry>)
    requires |entries| > 0
    requires forall i :: 0 <= i < |entries| ==> ',' !in EntryText(entries[i], false)
    ensures var r := SelectorText(target, Present(entries));
            |r| >= |target| + 3 && r[..|target| + 2] == "@" + target + "["
            && Split(r[|target| + 2..|r| - 1], ',') == EntryTexts(entries, false)
  {
    var r := SelectorText(target, Present(entries));
    var inner := Join(EntryTexts(entries, false), ",");
    assert EntriesText(entries, false) == inner;
    assert r == "@" + target + "[" + inner + "]";
    assert r[|target| + 2..|r| - 1] == inner;
    SplitJoin(EntryTexts(entries, false), ',');
  }

  /** `r` is `head`, `[`, pieces that split on `,` back into `parts`, `]` and `tail`. */
  predicate BracketedList(r: string, head: string, parts: seq<string>, tail: string)
  {
    |r| >= |head| + |tail| + 2 && r[..|head| + 1] == head + "["
    && r[|r| - |tail| - 1..] == "]" + tail
    && Split(r[|head| + 1..|r| - |tail| - 1], ',') == parts
  }

  /** A comma-joined list in brackets between `head` and `tail` reads back as its pieces. */
  lemma BracketedReadsBack(head: string, parts: seq<string>, tail: string)
    requires |parts| > 0 && forall i :: 0 <= i < |parts| ==> ',' !in parts[i]
    ensures BracketedList(head + "[" + Join(parts, ",") + "]" + tail, head, parts, tail)
  {
    var inner := Join(parts, ",");
    var r := head + "[" + inner + "]" + tail;
    SplitJoin(parts, ',');
    Bracketed(head, inner, tail);
    SplitSlice(r, |head| + 1, |r| - |tail| - 1, inner, parts);
    assert |r| >= |head| + |tail| + 2;
    assert r[..|head| + 1] == head + "[";
    assert r[|r| - |tail| - 1..] == "]" + tail;
    assert Split(r[|head| + 1..|r| - |tail| - 1], ',') == parts;
    assert BracketedList(r, head, parts, tail);
  }

  lemma SplitSlice(r: string, lo: int, hi: int, inner: string, parts: seq<string>)
    requires 0 <= lo <= hi <= |r| && r[lo..hi] == inner && Split(inner, ',') == parts
    ensures Split(r[lo..hi], ',') == parts
  {
  }

  /** A joint item with a state is the item, the bracketed state entries in order, then the
      nbt's text. */
  lemma JointReadsBack(item: string, entries: seq<Entry>, nbt: Option<Value>)
    requires |entries| > 0
    requires forall i :: 0 <= i < |entries| ==> ',' !in EntryText(entries[i], false)
    ensures BracketedList(JointText(item, Present(entries), nbt), item, EntryTexts(entries, false),
                          if nbt.Some? then Stringify(nbt.value, true) else "")
  {
    JointTextWithState(item, entries, nbt);
    BracketedReadsBack(item, EntryTexts(entries, false), if nbt.Some? then Stringify(nbt.value, true) else "");
  }

  lemma JointTextWithState(item: string, entries: seq<Entry>, nbt: Option<Value>)
    ensures JointText(item, Present(entries), nbt)
         == item + "[" + Join(EntryTexts(entries, false), ",") + "]"
            + (if nbt.Some? then Stringify(nbt.value, true) else "")
  {
    assert EntriesText(entries, false) == Join(EntryTexts(entries, false), ",");
  }

  /** Where the parts of `a[inner]tail` lie. */
  lemma Bracketed(a: string, inner: string, tail: string)
    ensures var r := a + "[" + inner + "]" + tail;
            |r| == |a| + |inner| + |tail| + 2 && r[..|a| + 1] == a + "["
            && r[|r| - |tail| - 1..] == "]" + tail && r[|a| + 1..|r| - |tail| - 1] == inner
  {
  }

  /** `String(array)` is its elements' `String` texts, comma-separated. */
  lemma DisplayArrayReadsBack(items: seq<Value>)
    requires |items| > 0
    requires forall i :: 0 <= i < |items| ==> ',' !in Display(items[i])
    ensures Split(Display(Array(items)), ',') == seq(|items|, i requires 0 <= i < |items| => Display(items[i]))
  {
    SplitJoin(seq(|items|, i requires 0 <= i < |items| => Display(items[i])), ',');
  }
}
