/** JavaScript values as the application receives them from JSON request
    bodies and database rows, and the few built-in operations its code relies
    on (truthiness, `String()`, `Number()`, `parseInt`, `trim`, case mapping,
    `split`, `join`, `JSON.stringify`, `Set` de-duplication). */
module JsValues {

  datatype Option<+T> = None | Some(value: T)

  /** A JSON-shaped JavaScript value. Numbers are integers; the fields of an
      object keep their property order. */
  datatype Json =
    | Undefined
    | Null
    | Bool(b: bool)
    | Num(n: int)
    | Str(s: string)
    | Arr(items: seq<Json>)
    | Obj(fields: seq<(string, Json)>)

  /** A database row (or a flat record object) keyed by column name. */
  type Row = map<string, Json>

  /** Reading a column of a row; a column the row does not set reads as null. */
  function Col(r: Row, name: string): Json
  {
    if name in r then r[name] else Null
  }

  /** `!!v` */
  predicate Truthy(v: Json)
  {
    match v
    case Undefined => false
    case Null => false
    case Bool(b) => b
    case Num(n) => n != 0
    case Str(s) => s != ""
    case Arr(_) => true
    case Obj(_) => true
  }

  /** `v === null || v === undefined` */
  predicate IsNullish(v: Json)
  {
    v.Undefined? || v.Null?
  }

  /** `a || b` */
  function Or(a: Json, b: Json): (r: Json)
    ensures Truthy(r) <==> Truthy(a) || Truthy(b)
    ensures Truthy(a) ==> r == a
    ensures !Truthy(a) ==> r == b
  {
    if Truthy(a) then a else b
  }

  /** Property read `obj[key]` on an object parsed from JSON: undefined when
      absent, and the last member with the key when there are several, as
      `JSON.parse` keeps the last. */
  function Get(fields: seq<(string, Json)>, key: string): Json
  {
    if fields == [] then Undefined
    else if fields[|fields| - 1].0 == key then fields[|fields| - 1].1
    else Get(fields[..|fields| - 1], key)
  }

  /** A read finds the member with the key when no later member has it. */
  lemma {:induction false} GetMember(fields: seq<(string, Json)>, k: nat, key: string)
    requires k < |fields| && fields[k].0 == key
    requires forall j :: k < j < |fields| ==> fields[j].0 != key
    ensures Get(fields, key) == fields[k].1
    decreases |fields|
  {
    var init := fields[..|fields| - 1];
    if k < |fields| - 1 {
      assert forall j :: k < j < |init| ==> init[j] == fields[j];
      GetMember(init, k, key);
    }
  }

  // ---------------------------------------------------------------------
  // Characters and strings
  // ---------------------------------------------------------------------

  /** The WhiteSpace and LineTerminator code points of ECMAScript: what
      `String.prototype.trim` strips and what `\s` matches. */
  predicate IsSpace(c: char)
  {
    || c == ' ' || c == '\t' || c == '\n' || c == '\r' || c == '\U{0B}' || c == '\U{0C}'
    || c == '\U{A0}' || c == '\U{1680}' || ('\U{2000}' <= c <= '\U{200A}')
    || c == '\U{2028}' || c == '\U{2029}' || c == '\U{202F}' || c == '\U{205F}'
    || c == '\U{3000}' || c == '\U{FEFF}'
  }

  function TrimStart(s: string): (r: string)
    ensures |r| <= |s| && r == s[|s| - |r|..]
    ensures r != [] ==> !IsSpace(r[0])
    ensures forall i :: 0 <= i < |s| - |r| ==> IsSpace(s[i])
  {
    if s != [] && IsSpace(s[0]) then TrimStart(s[1..]) else s
  }

  /** `s.trim()`: white space stripped from both ends. */
  function Trim(s: string): (r: string)
    ensures |r| <= |s|
    ensures r != [] ==> !IsSpace(r[0]) && !IsSpace(r[|r| - 1])
  {
    if s != [] && IsSpace(s[0]) then Trim(s[1..])
    else if s != [] && IsSpace(s[|s| - 1]) then Trim(s[..|s| - 1])
    else s
  }

  /** Trimming gives the empty text exactly for a text of white space only. */
  lemma {:induction false} TrimBlank(s: string)
    ensures Trim(s) == [] <==> forall i :: 0 <= i < |s| ==> IsSpace(s[i])
  {
    if s != [] && IsSpace(s[0]) {
      TrimBlank(s[1..]);
      assert forall i :: 1 <= i < |s| ==> s[i] == s[1..][i - 1];
    } else if s != [] && IsSpace(s[|s| - 1]) {
      TrimBlank(s[..|s| - 1]);
      assert forall i :: 0 <= i < |s| - 1 ==> s[i] == s[..|s| - 1][i];
    }
  }

  lemma TrimOfTrimmed(s: string)
    requires s != [] ==> !IsSpace(s[0]) && !IsSpace(s[|s| - 1])
    ensures Trim(s) == s
  {
  }

  lemma TrimIdempotent(s: string)
    ensures Trim(Trim(s)) == Trim(s)
  {
    TrimOfTrimmed(Trim(s));
  }

  /** Trimming only removes characters: every character left comes from the input. */
  lemma {:induction false} TrimKeepsCharacters(s: string)
    ensures forall c :: c in Trim(s) ==> c in s
  {
    if s != [] && IsSpace(s[0]) {
      TrimKeepsCharacters(s[1..]);
      assert forall c :: c in s[1..] ==> c in s;
    } else if s != [] && IsSpace(s[|s| - 1]) {
      TrimKeepsCharacters(s[..|s| - 1]);
      assert forall c :: c in s[..|s| - 1] ==> c in s;
    }
  }

  /** ASCII case mapping: the model maps only the letters A-Z and a-z. */
  function LowerChar(c: char): char
  {
    if 'A' <= c <= 'Z' then (c as int + 32) as char else c
  }

  function UpperChar(c: char): char
  {
    if 'a' <= c <= 'z' then (c as int - 32) as char else c
  }

  /** `s.toLowerCase()` */
  function ToLower(s: string): (r: string)
    ensures |r| == |s|
  {
    seq(|s|, i requires 0 <= i < |s| => LowerChar(s[i]))
  }

  /** `s.toUpperCase()` */
  function ToUpper(s: string): (r: string)
    ensures |r| == |s|
  {
    seq(|s|, i requires 0 <= i < |s| => UpperChar(s[i]))
  }

  /** Lower-casing works character by character, so it keeps a prefix. */
  lemma ToLowerPrefix(a: string, b: string)
    ensures StartsWith(ToLower(a + b), ToLower(a))
  {
    assert ToLower(a + b)[..|a|] == ToLower(a);
  }

  lemma ToLowerIdempotent(s: string)
    ensures ToLower(ToLower(s)) == ToLower(s)
  {
  }

  /** `s.startsWith(p)` */
  predicate StartsWith(s: string, p: string)
  {
    |p| <= |s| && s[..|p|] == p
  }

  /** `s.includes(sub)` */
  predicate Includes(s: string, sub: string)
    decreases |s|
  {
    StartsWith(s, sub) || (s != [] && Includes(s[1..], sub))
  }

  /** `s.split(re)` for a character-class pattern such as `/[,\n]/`. */
  function Split(s: string, seps: set<char>): (parts: seq<string>)
    ensures |parts| >= 1
    ensures forall i, k :: 0 <= i < |parts| && 0 <= k < |parts[i]| ==> parts[i][k] !in seps
  {
    if s == [] then [""]
    else
      var rest := Split(s[1..], seps);
      if s[0] in seps then [""] + rest
      else [[s[0]] + rest[0]] + rest[1..]
  }

  /** `parts.join(sep)` for strings. */
  function Join(parts: seq<string>, sep: string): string
  {
    if parts == [] then ""
    else if |parts| == 1 then parts[0]
    else parts[0] + sep + Join(parts[1..], sep)
  }

  /** Joining a part in front of a non-empty list puts the separator
      between them. */
  lemma JoinCons(x: string, parts: seq<string>, sep: string)
    requires parts != []
    ensures Join([x] + parts, sep) == x + sep + Join(parts, sep)
  {
    assert ([x] + parts)[1..] == parts;
  }

  /** A character put in front of the first part comes first in the join. */
  lemma {:induction false} JoinPrepend(ch: char, parts: seq<string>, sep: string)
    requires parts != []
    ensures Join([[ch] + parts[0]] + parts[1..], sep) == [ch] + Join(parts, sep)
  {
    if |parts| > 1 {
      JoinCons([ch] + parts[0], parts[1..], sep);
      JoinCons(parts[0], parts[1..], sep);
      assert parts == [parts[0]] + parts[1..];
    }
  }

  /** Splitting on one separator character and joining with it again gives
      back the original text. */
  lemma {:induction false} JoinSplit(s: string, c: char)
    ensures Join(Split(s, {c}), [c]) == s
  {
    if s != [] {
      var rest := Split(s[1..], {c});
      JoinSplit(s[1..], c);
      assert s == [s[0]] + s[1..];
      if s[0] == c {
        JoinCons("", rest, [c]);
      } else {
        JoinPrepend(s[0], rest, [c]);
      }
    }
  }

  // ---------------------------------------------------------------------
  // Numbers
  // ---------------------------------------------------------------------

  predicate IsDigit(c: char)
  {
    '0' <= c <= '9'
  }

  predicate AllDigits(s: string)
  {
    forall i :: 0 <= i < |s| ==> IsDigit(s[i])
  }

  function DigitChar(d: nat): (c: char)
    requires d < 10
    ensures IsDigit(c)
  {
    ('0' as int + d) as char
  }

  function DigitsValue(ds: string): nat
    requires AllDigits(ds)
  {
    if ds == [] then 0 else DigitsValue(ds[..|ds| - 1]) * 10 + (ds[|ds| - 1] as int - '0' as int)
  }

  function NatToString(n: nat): (r: string)
    ensures r != [] && AllDigits(r)
  {
    if n < 10 then [DigitChar(n)] else NatToString(n / 10) + [DigitChar(n % 10)]
  }

  /** `String(n)` for an integer. */
  function IntToString(n: int): (r: string)
    ensures r != []
  {
    if n < 0 then "-" + NatToString(-n) else NatToString(n)
  }

  lemma {:induction false} DigitsOfNat(n: nat)
    ensures DigitsValue(NatToString(n)) == n
  {
    if n >= 10 {
      DigitsOfNat(n / 10);
      var r := NatToString(n);
      assert r[..|r| - 1] == NatToString(n / 10);
    }
  }

  /** `Number(s)` for a string: blank text is 0, an optionally signed run of
      decimal digits is its value, anything else is NaN (None). */
  function StringToNumber(s: string): Option<int>
  {
    var t := Trim(s);
    if t == "" then Some(0)
    else if |t| > 1 && t[0] == '-' && AllDigits(t[1..]) then Some(0 - DigitsValue(t[1..]))
    else if |t| > 1 && t[0] == '+' && AllDigits(t[1..]) then Some(DigitsValue(t[1..]))
    else if AllDigits(t) then Some(DigitsValue(t))
    else None
  }

  /** Reading back the decimal text of an integer gives the integer. */
  lemma NumberOfIntToString(n: int)
    ensures StringToNumber(IntToString(n)) == Some(n)
  {
    var r := IntToString(n);
    TrimOfTrimmed(r);
    if n < 0 {
      assert r[1..] == NatToString(-n);
      DigitsOfNat(-n);
    } else {
      DigitsOfNat(n);
    }
  }

  /** `Number(v)`; None is NaN. */
  function ToNumber(v: Json): Option<int>
  {
    match v
    case Undefined => None
    case Null => Some(0)
    case Bool(b) => Some(if b then 1 else 0)
    case Num(n) => Some(n)
    case Str(s) => StringToNumber(s)
    case Arr(_) => StringToNumber(ToStr(v))
    case Obj(_) => None
  }

  function HexValue(c: char): int
  {
    if '0' <= c <= '9' then c as int - '0' as int
    else if 'a' <= c <= 'f' then c as int - 'a' as int + 10
    else if 'A' <= c <= 'F' then c as int - 'A' as int + 10
    else 99
  }

  /** The longest prefix of `s` made of digits of `radix` (10 or 16). */
  function DigitRun(s: string, radix: int): (r: string)
    ensures |r| <= |s| && r == s[..|r|]
    ensures forall i :: 0 <= i < |r| ==> HexValue(r[i]) < radix
  {
    if s != [] && HexValue(s[0]) < radix then [s[0]] + DigitRun(s[1..], radix) else []
  }

  function RunValue(ds: string, radix: int): int
  {
    if ds == [] then 0 else RunValue(ds[..|ds| - 1], radix) * radix + HexValue(ds[|ds| - 1])
  }

  /** `parseInt(s)` without a radix: leading white space, an optional sign,
      then the longest run of digits, hexadecimal after a `0x` or `0X`
      prefix; NaN (None) when no digit follows. */
  function ParseInt(s: string): Option<int>
  {
    var t := TrimStart(s);
    var sign := if t != [] && t[0] == '-' then -1 else 1;
    var u := if t != [] && (t[0] == '-' || t[0] == '+') then t[1..] else t;
    var hex := |u| >= 2 && u[0] == '0' && (u[1] == 'x' || u[1] == 'X');
    var radix := if hex then 16 else 10;
    var ds := DigitRun(if hex then u[2..] else u, radix);
    if ds == [] then None else Some(sign * RunValue(ds, radix))
  }

  // ---------------------------------------------------------------------
  // String(), Array.prototype.join, JSON.stringify
  // ---------------------------------------------------------------------

  /** `String(v)`. Arrays join their elements with commas, null and undefined
      elements becoming empty text. */
  function ToStr(v: Json): string
  {
    match v
    case Undefined => "undefined"
    case Null => "null"
    case Bool(b) => if b then "true" else "false"
    case Num(n) => IntToString(n)
    case Str(s) => s
    case Arr(items) =>
      Join(seq(|items|, i requires 0 <= i < |items| => if IsNullish(items[i]) then "" else ToStr(items[i])), ",")
    case Obj(_) => "[object Object]"
  }

  /** `items.join(sep)` */
  function JoinValues(items: seq<Json>, sep: string): string
  {
    Join(seq(|items|, i requires 0 <= i < |items| => if IsNullish(items[i]) then "" else ToStr(items[i])), sep)
  }

  function HexDigit(d: int): char
    requires 0 <= d < 16
  {
    if d < 10 then ('0' as int + d) as char else ('a' as int + d - 10) as char
  }

  /** The JSON escape of one character. */
  function EscapeChar(c: char): string
  {
    if c == '"' then "\\\""
    else if c == '\\' then "\\\\"
    else if c == '\U{08}' then "\\b"
    else if c == '\U{0C}' then "\\f"
    else if c == '\n' then "\\n"
    else if c == '\r' then "\\r"
    else if c == '\t' then "\\t"
    else if (c as int) < 0x20 then "\\u00" + [HexDigit(c as int / 16), HexDigit(c as int % 16)]
    else [c]
  }

  function Escape(s: string): string
  {
    if s == [] then "" else EscapeChar(s[0]) + Escape(s[1..])
  }

  function Quote(s: string): string
  {
    "\"" + Escape(s) + "\""
  }

  function Somes(xs: seq<Option<string>>): seq<string>
  {
    if xs == [] then []
    else (if xs[0].Some? then [xs[0].value] else []) + Somes(xs[1..])
  }

  /** `JSON.stringify(v)`; an undefined array element is written as null and
      an undefined object member is left out. */
  function Stringify(v: Json): (r: string)
    ensures v.Obj? ==> |r| >= 2 && r[0] == '{' && r[|r| - 1] == '}'
  {
    match v
    case Undefined => "null"
    case Null => "null"
    case Bool(b) => if b then "true" else "false"
    case Num(n) => IntToString(n)
    case Str(s) => Quote(s)
    case Arr(items) =>
      "[" + Join(seq(|items|, i requires 0 <= i < |items| => Stringify(items[i])), ",") + "]"
    case Obj(fields) =>
      "{" + Join(Somes(seq(|fields|, i requires 0 <= i < |fields| =>
                   if fields[i].1.Undefined? then None
                   else Some(Quote(fields[i].0) + ":" + Stringify(fields[i].1)))), ",") + "}"
  }

  /** The values kept by `.filter(Boolean)`. */
  function TruthyOnly(xs: seq<Json>): (r: seq<Json>)
    ensures forall i :: 0 <= i < |r| ==> Truthy(r[i])
    ensures forall x :: x in r ==> x in xs
    ensures forall x :: x in xs && Truthy(x) ==> x in r
  {
    if xs == [] then []
    else (if Truthy(xs[0]) then [xs[0]] else []) + TruthyOnly(xs[1..])
  }

  // ---------------------------------------------------------------------
  // Set de-duplication
  // ---------------------------------------------------------------------

  predicate IsPrimitive(v: Json)
  {
    !v.Arr? && !v.Obj?
  }

  /** SameValueZero, the equality a `Set` uses, on values parsed from JSON:
      primitives compare by value, and every array or object is an object of
      its own. */
  predicate SameValueZero(a: Json, b: Json)
  {
    IsPrimitive(a) && a == b
  }

  /** `Array.from(new Set(xs))`: the first occurrence of each value, in order. */
  function Unique(xs: seq<Json>): (r: seq<Json>)
  {
    if xs == [] then []
    else
      var init := Unique(xs[..|xs| - 1]);
      var x := xs[|xs| - 1];
      if exists i :: 0 <= i < |init| && SameValueZero(init[i], x) then init else init + [x]
  }

  /** No value occurs twice in a de-duplicated list, and it holds exactly the
      values of the input. */
  lemma {:induction false} UniqueSpec(xs: seq<Json>)
    ensures forall i, j :: 0 <= i < j < |Unique(xs)| ==> !SameValueZero(Unique(xs)[i], Unique(xs)[j])
    ensures forall x :: x in Unique(xs) <==> x in xs
  {
    if xs != [] {
      var init := Unique(xs[..|xs| - 1]);
      UniqueSpec(xs[..|xs| - 1]);
      assert xs == xs[..|xs| - 1] + [xs[|xs| - 1]];
    }
  }

  /** `xs[k]` is the first occurrence of its value: no earlier element is
      SameValueZero-equal to it. */
  predicate IsFirstOccurrence(xs: seq<Json>, k: nat)
    requires k < |xs|
  {
    forall j :: 0 <= j < k ==> !SameValueZero(xs[j], xs[k])
  }

  /** The first occurrences among the first n elements, in index order. */
  function FirstOccurrencesBelow(xs: seq<Json>, n: nat): seq<Json>
    requires n <= |xs|
  {
    if n == 0 then []
    else FirstOccurrencesBelow(xs, n - 1) + (if IsFirstOccurrence(xs, n - 1) then [xs[n - 1]] else [])
  }

  /** The elements of xs that are first occurrences, in index order. */
  function FirstOccurrences(xs: seq<Json>): seq<Json>
  {
    FirstOccurrencesBelow(xs, |xs|)
  }

  /** Only the first n elements matter to the first occurrences below n. */
  lemma {:induction false} FirstOccurrencesBelowPrefix(xs: seq<Json>, ys: seq<Json>, n: nat)
    requires n <= |xs| && n <= |ys| && xs[..n] == ys[..n]
    ensures FirstOccurrencesBelow(xs, n) == FirstOccurrencesBelow(ys, n)
  {
    if n > 0 {
      assert xs[..n - 1] == ys[..n - 1] by {
        assert xs[..n - 1] == xs[..n][..n - 1] && ys[..n - 1] == ys[..n][..n - 1];
      }
      FirstOccurrencesBelowPrefix(xs, ys, n - 1);
      assert xs[n - 1] == xs[..n][n - 1] && ys[n - 1] == ys[..n][n - 1];
      assert forall j :: 0 <= j < n - 1 ==> xs[j] == xs[..n][j] && ys[j] == ys[..n][j];
    }
  }

  /** `Array.from(new Set(xs))` keeps exactly the first occurrence of each
      value, in the order of the input. */
  lemma {:induction false} UniqueIsFirstOccurrences(xs: seq<Json>)
    ensures Unique(xs) == FirstOccurrences(xs)
  {
    if xs != [] {
      var n := |xs|;
      var prefix := xs[..n - 1];
      var x := xs[n - 1];
      UniqueIsFirstOccurrences(prefix);
      UniqueSpec(prefix);
      FirstOccurrencesBelowPrefix(xs, prefix, n - 1);
      var init := Unique(prefix);
      assert (exists i :: 0 <= i < |init| && SameValueZero(init[i], x)) <==> !IsFirstOccurrence(xs, n - 1) by {
        if exists i :: 0 <= i < |init| && SameValueZero(init[i], x) {
          var i :| 0 <= i < |init| && SameValueZero(init[i], x);
          assert init[i] in prefix;
          var j :| 0 <= j < |prefix| && prefix[j] == init[i];
          assert SameValueZero(xs[j], xs[n - 1]);
        }
        if !IsFirstOccurrence(xs, n - 1) {
          var j :| 0 <= j < n - 1 && SameValueZero(xs[j], xs[n - 1]);
          assert prefix[j] in prefix;
          assert xs[j] in init;
          var i :| 0 <= i < |init| && init[i] == xs[j];
          assert SameValueZero(init[i], x);
        }
      }
    }
  }
}
