/** The Python values the bot handles: what `json` decodes an API answer into,
    the exceptions the validators raise, and the text `str()` gives for both
    (the notification embeds `str(homework_name)`, the failure report embeds
    `str(error)`). */
module PyData {
  import opened Wrappers

  /** A decoded JSON document. A `Dict` keeps its entries in insertion order,
      as a Python dict does; decoding gives every key once. JSON numbers with
      a fraction (Python floats) are not modelled. */
  datatype Value =
    | Null
    | Bool(b: bool)
    | Int(i: int)
    | Str(s: string)
    | List(items: seq<Value>)
    | Dict(entries: seq<(string, Value)>)

  /** `d.get(key)`: the value stored under `key`, or None when `key in d` is false. */
  function Get(entries: seq<(string, Value)>, key: string): (r: Option<Value>)
    ensures r.Some? ==> |entries| > 0
  {
    if entries == [] then None
    else if entries[0].0 == key then Some(entries[0].1)
    else Get(entries[1..], key)
  }

  /** `key in d` exactly when some entry carries `key`, and then `d.get(key)`
      is the value of such an entry. */
  lemma {:induction false} GetFindsEntry(entries: seq<(string, Value)>, key: string)
    ensures Get(entries, key).Some? <==> exists k :: 0 <= k < |entries| && entries[k].0 == key
    ensures Get(entries, key).Some? ==>
              exists k :: 0 <= k < |entries| && entries[k] == (key, Get(entries, key).value)
  {
    if entries != [] && entries[0].0 != key {
      GetFindsEntry(entries[1..], key);
      if exists k :: 0 <= k < |entries| && entries[k].0 == key {
        var k :| 0 <= k < |entries| && entries[k].0 == key;
        assert entries[1..][k - 1].0 == key;
      }
      if Get(entries, key).Some? {
        var k :| 0 <= k < |entries[1..]| && entries[1..][k] == (key, Get(entries, key).value);
        assert entries[k + 1] == (key, Get(entries, key).value);
      }
    }
  }

  /** Entries before the first one stored under `key` do not affect `d.get(key)`. */
  lemma {:induction false} GetSkipsOtherKeys(before: seq<(string, Value)>, rest: seq<(string, Value)>, key: string)
    requires forall k :: 0 <= k < |before| ==> before[k].0 != key
    ensures Get(before + rest, key) == Get(rest, key)
  {
    if before == [] {
      assert before + rest == rest;
    } else {
      assert (before + rest)[0] == before[0];
      assert (before + rest)[1..] == before[1..] + rest;
      GetSkipsOtherKeys(before[1..], rest, key);
    }
  }

  /** The exceptions raised on the modelled paths. `Exception` stands for every
      exception whose `str()` is its message (the generic ones of the source,
      and whatever else escapes the fetch). */
  datatype Error =
    | TypeError(message: string)
    | KeyError(key: string)
    | Exception(message: string)

  /** `str(error)`: a KeyError shows the repr of its key, quotes included. */
  function ErrorText(e: Error): string
  {
    match e
    case TypeError(m) => m
    case KeyError(k) => StrRepr(k)
    case Exception(m) => m
  }

  /** `str(v)`: a string is itself, anything else is shown as by `repr`. */
  function PyStr(v: Value): string
  {
    if v.Str? then v.s else Repr(v)
  }

  /** `repr(v)` for the JSON subset of Python values. */
  function Repr(v: Value): string
    decreases v
  {
    match v
    case Null => "None"
    case Bool(b) => if b then "True" else "False"
    case Int(i) => Decimal(i)
    case Str(s) => StrRepr(s)
    case List(items) =>
      "[" + Join(seq(|items|, k requires 0 <= k < |items| => Repr(items[k]))) + "]"
    case Dict(entries) =>
      "{" + Join(seq(|entries|, k requires 0 <= k < |entries| =>
                       StrRepr(entries[k].0) + ": " + Repr(entries[k].1))) + "}"
  }

  /** `", ".join(parts)` */
  function Join(parts: seq<string>): string
  {
    if |parts| == 0 then ""
    else if |parts| == 1 then parts[0]
    else parts[0] + ", " + Join(parts[1..])
  }

  /** `repr(n)` for an integer. */
  function Decimal(n: int): string
  {
    if n < 0 then "-" + Digits(-n) else Digits(n)
  }

  function Digits(n: nat): string
    decreases n
  {
    if n < 10 then ["0123456789"[n]] else Digits(n / 10) + ["0123456789"[n % 10]]
  }

  /** `repr(s)` for a string: single quotes unless the text holds a single
      quote and no double quote. */
  function StrRepr(s: string): string
  {
    var quote := if '\'' in s && '"' !in s then '"' else '\'';
    [quote] + Escape(s, quote) + [quote]
  }

  function Escape(s: string, quote: char): string
  {
    if s == [] then "" else EscapeChar(s[0], quote) + Escape(s[1..], quote)
  }

  /** Characters `repr` writes as they are inside `quote`. */
  predicate Plain(c: char, quote: char)
  {
    c != quote && c != '\\' && ' ' <= c && !('\U{7F}' <= c <= '\U{A0}') && c != '\U{AD}'
  }

  /** Text made of plain characters passes through `repr` unescaped. */
  lemma {:induction false} EscapeKeepsPlainText(s: string, quote: char)
    requires forall k :: 0 <= k < |s| ==> Plain(s[k], quote)
    ensures Escape(s, quote) == s
  {
    if s != [] {
      EscapeKeepsPlainText(s[1..], quote);
      assert s == [s[0]] + s[1..];
    }
  }

  /** A KeyError whose text holds no single quote and only plain characters
      is shown as that text between single quotes. */
  lemma KeyErrorTextIsQuoted(key: string)
    requires forall k :: 0 <= k < |key| ==> Plain(key[k], '\'')
    ensures ErrorText(KeyError(key)) == "'" + key + "'"
  {
    EscapeKeepsPlainText(key, '\'');
  }

  /** How `repr` writes one character inside the quotes. Of the characters
      Python deems unprintable, only those below U+0100 are escaped here. */
  function EscapeChar(c: char, quote: char): string
  {
    if c == quote || c == '\\' then ['\\', c]
    else if c == '\t' then "\\t"
    else if c == '\n' then "\\n"
    else if c == '\r' then "\\r"
    else if c < ' ' || ('\U{7F}' <= c <= '\U{A0}') || c == '\U{AD}' then
      var code := c as int;
      "\\x" + ["0123456789abcdef"[code / 16], "0123456789abcdef"[code % 16]]
    else [c]
  }
}
