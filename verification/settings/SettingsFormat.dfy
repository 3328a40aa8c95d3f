/** The settings file: `Name = 1`, `Name = "word"`, comments, one setting a line. */
module SettingsFormat {
  import opened Characters
  import opened Wrappers

  datatype Value = Number(n: int) | Text(s: string)
  type Table = seq<(string, Value)>

  const STRING_CAP: nat := 63
  const NUMBER_MAX: int := 0x7fffffff
  const BOM: char := '\U{FEFF}'

  /** What the platform calls a space and a letter or digit. */
  datatype Locale = Locale(space: char -> bool, alnum: char -> bool)

  predicate IsSpace(loc: Locale, c: char) { loc.space(c) }
  predicate IsAlnum(loc: Locale, c: char) { loc.alnum(c) }

  /** The little the format needs of it; `iswspace` and `iswalnum` satisfy it in every locale. */
  ghost predicate Sane(loc: Locale) {
    && IsSpace(loc, ' ') && IsSpace(loc, '\r') && IsSpace(loc, '\n')
    && !IsSpace(loc, '"') && !IsSpace(loc, '#') && !IsSpace(loc, '=') && !IsSpace(loc, '-') && !IsSpace(loc, '_')
    && !IsSpace(loc, '+')
    && !IsAlnum(loc, '=') && !IsAlnum(loc, '#')
    && (forall c :: IsAlnum(loc, c) ==> !IsSpace(loc, c))
    && (forall c :: IsDigit(c) || IsAlpha(c) ==> IsAlnum(loc, c))
  }

  // ---- reading

  function TrimLeft(loc: Locale, s: string): (r: string)
    ensures |r| <= |s|
  {
    if s != "" && IsSpace(loc, s[0]) then TrimLeft(loc, s[1..]) else s
  }

  function TrimRight(loc: Locale, s: string): (r: string)
    ensures |r| <= |s|
  {
    if s != "" && IsSpace(loc, s[|s| - 1]) then TrimRight(loc, s[..|s| - 1]) else s
  }

  function Trim(loc: Locale, s: string): string { TrimRight(loc, TrimLeft(loc, s)) }

  predicate KeyChar(loc: Locale, c: char) { IsAlnum(loc, c) || c == '_' || c == '-' }

  predicate BareKey(loc: Locale, k: string) { k != "" && forall i :: 0 <= i < |k| ==> KeyChar(loc, k[i]) }

  /** How many characters come before the first `c`: all of them when there is none. */
  function Before(s: string, c: char): (n: nat)
    ensures n <= |s|
    ensures forall k :: 0 <= k < n ==> s[k] != c
    ensures n < |s| ==> s[n] == c
  {
    if s == "" || s[0] == c then 0 else 1 + Before(s[1..], c)
  }

  /** The text up to the closing quote, backslashes taken off. */
  function Unquote(s: string): Option<string> {
    if s == "" then None
    else if s[0] == '\\' && |s| > 1 then Prefixed(s[1], Unquote(s[2..]))
    else if s[0] == '"' then Some("")
    else Prefixed(s[0], Unquote(s[1..]))
  }

  function Prefixed(c: char, o: Option<string>): Option<string> {
    if o.None? then None else Some([c] + o.value)
  }

  function Capped(s: string): string { if |s| > STRING_CAP then s[..STRING_CAP] else s }


  /** The digits' value, going on from `n`, as long as it stays in range. */
  function Digits(s: string, n: nat): Option<nat> {
    if s == "" then Some(n)
    else if !IsDigit(s[0]) || n * 10 + (s[0] - '0') as nat > NUMBER_MAX then None
    else Digits(s[1..], n * 10 + (s[0] - '0') as nat)
  }

  function Integer(s: string): Option<int> {
    var signed := s != "" && (s[0] == '+' || s[0] == '-');
    var body := if signed then s[1..] else s;
    if body == "" then None
    else
      var n := Digits(body, 0);
      if n.None? then None else Some(if s[0] == '-' then 0 - n.value else n.value)
  }

  function ReadValue(loc: Locale, value: string): Option<Value>
    requires value != ""
  {
    if value[0] == '"' then
      var s := Unquote(value[1..]);
      if s.None? then None else Some(Text(Capped(s.value)))
    else
      var hash := Before(value, '#');
      var bare := if hash < |value| then Trim(loc, value[..hash]) else value;
      if bare == "true" then Some(Number(1))
      else if bare == "false" then Some(Number(0))
      else
        var n := Integer(bare);
        if n.None? then None else Some(Number(n.value))
  }

  /** One line: a setting, or nothing. */
  function ReadLine(loc: Locale, raw: string): Table {
    var line := Trim(loc, raw);
    var eq := Before(line, '=');
    if line == "" || line[0] == '#' || eq == |line| then []
    else
      var key := Trim(loc, line[..eq]);
      var value := Trim(loc, line[eq + 1..]);
      if !BareKey(loc, key) || value == "" then []
      else
        var v := ReadValue(loc, value);
        if v.None? then [] else [(key, v.value)]
  }

  function ReadLines(loc: Locale, text: string): Table
    decreases |text|
  {
    var nl := Before(text, '\n');
    ReadLine(loc, text[..nl]) + if nl == |text| then [] else ReadLines(loc, text[nl + 1..])
  }

  function Parse(loc: Locale, toml: string): Table {
    ReadLines(loc, if toml != "" && toml[0] == BOM then toml[1..] else toml)
  }

  // ---- writing

  function Escape(s: string): string {
    if s == "" then ""
    else (if s[0] == '"' || s[0] == '\\' then ['\\', s[0]] else [s[0]]) + Escape(s[1..])
  }

  function Decimal(n: nat): string {
    if n < 10 then ['0' + n as char] else Decimal(n / 10) + ['0' + (n % 10) as char]
  }

  function WriteValue(v: Value): string {
    match v
    case Text(s) => "\"" + Escape(s) + "\""
    case Number(n) => if n < 0 then "-" + Decimal(-n) else Decimal(n)
  }

  function WriteLine(e: (string, Value)): string { e.0 + " = " + WriteValue(e.1) + "\r\n" }

  function WriteLines(t: Table): string {
    if t == [] then "" else WriteLine(t[0]) + WriteLines(t[1..])
  }

  const HEADER_1 := "# Panthera SAPI " + ("settings.  Written " + ("by the settings " + ("program; safe to " + "edit by hand.\r")))
  const HEADER_2 := "# Numbers stay " + ("numbers and words " + ("stay in quotes; a " + ("line that does not " + "parse is ignored.\r")))
  const HEADER := HEADER_1 + "\n" + (HEADER_2 + "\n")

  function Serialize(t: Table): string { HEADER + WriteLines(t) }
}
