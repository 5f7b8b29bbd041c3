/** The collector's one-line log records: rendering, and a reader that recovers
    every field. */
module LogLine {
  import opened Machine

  datatype LogLevel = Error | Warn | Info | Debug | Trace {
    function Name(): string {
      match this
      case Error => "error"
      case Warn => "warn"
      case Info => "info"
      case Debug => "debug"
      case Trace => "trace"
    }
  }

  datatype Field = Field(key: string, value: string)

  datatype Record = Record(level: LogLevel, action: string, fields: seq<Field>)

  const PREFIX := "pg_kronika-collector"

  // ---- Character classes of Rust's `char` ----

  predicate IsControl(c: char) {
    c as int < 0x20 || 0x7F <= c as int < 0xA0
  }

  predicate IsWhitespace(c: char) {
    var n := c as int;
    || 0x09 <= n <= 0x0D || n == 0x20 || n == 0x85 || n == 0xA0 || n == 0x1680
    || 0x2000 <= n <= 0x200A || n == 0x2028 || n == 0x2029 || n == 0x202F || n == 0x205F || n == 0x3000
  }

  predicate IsPlainChar(c: char) {
    !IsWhitespace(c) && !IsControl(c) && c != '=' && c != '"' && c != '\\'
  }

  predicate IsPlain(value: string) {
    value != "" && forall i :: 0 <= i < |value| ==> IsPlainChar(value[i])
  }

  /** Keys are fixed names in the program text. */
  predicate IsKey(key: string) {
    forall i :: 0 <= i < |key| ==> key[i] != '=' && !IsControl(key[i])
  }

  /** The 25 characters with the property White_Space. */
  const WHITE_SPACE: string :=
    "\U{9}\U{A}\U{B}\U{C}\U{D} \U{85}\U{A0}\U{1680}\U{2000}\U{2001}\U{2002}\U{2003}\U{2004}\U{2005}"
    + "\U{2006}\U{2007}\U{2008}\U{2009}\U{200A}\U{2028}\U{2029}\U{202F}\U{205F}\U{3000}"

  lemma WhitespaceIsListed(c: char)
    ensures IsWhitespace(c) <==> c in WHITE_SPACE
  {
  }

  // ---- What a line says ----

  function HexDigit(n: nat): char
    requires n < 16
  {
    if n < 10 then '0' + n as char else 'a' + (n - 10) as char
  }

  function Hex(n: nat): (s: string)
    ensures |s| >= 1
  {
    if n < 16 then [HexDigit(n)] else Hex(n / 16) + [HexDigit(n % 16)]
  }

  function EscapedChar(c: char): string {
    if c == '"' then "\\\""
    else if c == '\\' then "\\\\"
    else if c == '\n' then "\\n"
    else if c == '\r' then "\\r"
    else if c == '\t' then "\\t"
    else if IsControl(c) then "\\u{" + Hex(c as int) + "}"
    else [c]
  }

  function Escaped(value: string): string {
    if value == "" then "" else EscapedChar(value[0]) + Escaped(value[1..])
  }

  function ValueText(value: string): string {
    if IsPlain(value) then value else "\"" + Escaped(value) + "\""
  }

  function FieldText(f: Field): string {
    " " + f.key + "=" + ValueText(f.value)
  }

  function FieldsText(fields: seq<Field>): string {
    if fields == [] then "" else FieldText(fields[0]) + FieldsText(fields[1..])
  }

  function LineText(r: Record): string {
    PREFIX + FieldText(Field("level", r.level.Name())) + FieldText(Field("action", r.action))
    + FieldsText(r.fields)
  }

  // ---- Rendering ----

  /** A value stands bare exactly when it is not empty and has no white space, no
      control character, and none of the three characters of the syntax. */
  lemma BareExactly(value: string)
    ensures (ValueText(value) != "" && ValueText(value)[0] != '"') <==>
            (value != "" && NoControl(value)
             && forall i :: 0 <= i < |value| ==> value[i] !in WHITE_SPACE && value[i] !in ['=', '"', '\\'])
  {
    forall i | 0 <= i < |value|
      ensures IsWhitespace(value[i]) <==> value[i] in WHITE_SPACE
    {
      WhitespaceIsListed(value[i]);
    }
  }

  /** Inside quotes a character stands for itself exactly when it is neither a control
      character nor a quote nor a backslash. */
  lemma EscapesExactly(c: char)
    ensures EscapedChar(c) == [c] <==> (NoControl([c]) && c != '"' && c != '\\')
  {
    assert [c][0] == c;
    assert NoControl([c]) <==> !IsControl(c);
    assert IsControl(c) || c == '"' || c == '\\' ==> |EscapedChar(c)| > 1;
  }

  lemma EscapedAppend(value: string, c: char)
    ensures Escaped(value + [c]) == Escaped(value) + EscapedChar(c)
  {
    if value == "" {
      assert [c][1..] == "";
    } else {
      assert (value + [c])[1..] == value[1..] + [c];
      EscapedAppend(value[1..], c);
    }
  }

  lemma Assoc(a: string, b: string, c: string)
    ensures (a + b) + c == a + (b + c)
  {
  }

  method PushEscaped(line: string, ch: char) returns (out: string)
    ensures out == line + EscapedChar(ch)
  {
    if ch == '"' {
      out := line + "\\\"";
    } else if ch == '\\' {
      out := line + "\\\\";
    } else if ch == '\n' {
      out := line + "\\n";
    } else if ch == '\r' {
      out := line + "\\r";
    } else if ch == '\t' {
      out := line + "\\t";
    } else if IsControl(ch) {
      out := line + ("\\u{" + Hex(ch as int) + "}");
    } else {
      out := line + [ch];
    }
  }

  method PushQuoted(line: string, value: string) returns (out: string)
    ensures out == line + ("\"" + Escaped(value) + "\"")
  {
    out := line + "\"";
    ghost var head := out;
    for i := 0 to |value|
      invariant out == head + Escaped(value[..i])
    {
      EscapedAppend(value[..i], value[i]);
      assert value[..i + 1] == value[..i] + [value[i]];
      Assoc(head, Escaped(value[..i]), EscapedChar(value[i]));
      out := PushEscaped(out, value[i]);
    }
    assert value[..|value|] == value;
    Assoc(line, "\"", Escaped(value));
    out := out + "\"";
  }

  method PushLogValue(line: string, value: string) returns (out: string)
    ensures out == line + ValueText(value)
  {
    var plain := value != "";
    for i := 0 to |value|
      invariant plain <==> value != "" && forall k :: 0 <= k < i ==> IsPlainChar(value[k])
    {
      plain := plain && IsPlainChar(value[i]);
    }
    if plain {
      return line + value;
    }
    out := PushQuoted(line, value);
  }

  method PushLogField(line: string, key: string, value: string) returns (out: string)
    ensures out == line + FieldText(Field(key, value))
  {
    out := PushLogValue(line + " " + key + "=", value);
  }

  lemma FieldsTextAppend(fields: seq<Field>, f: Field)
    ensures FieldsText(fields + [f]) == FieldsText(fields) + FieldText(f)
  {
    if fields == [] {
      assert [f][1..] == [];
    } else {
      assert (fields + [f])[1..] == fields[1..] + [f];
      FieldsTextAppend(fields[1..], f);
    }
  }

  method PushFields(head: string, fields: seq<Field>) returns (line: string)
    ensures line == head + FieldsText(fields)
  {
    line := head;
    for i := 0 to |fields|
      invariant line == head + FieldsText(fields[..i])
    {
      FieldsTextAppend(fields[..i], fields[i]);
      assert fields[..i + 1] == fields[..i] + [fields[i]];
      Assoc(head, FieldsText(fields[..i]), FieldText(fields[i]));
      line := PushLogField(line, fields[i].key, fields[i].value);
    }
    assert fields[..|fields|] == fields;
  }

  method RenderLogLine(level: LogLevel, action: string, fields: seq<Field>) returns (line: string)
    ensures line == LineText(Record(level, action, fields))
  {
    line := PushLogField(PREFIX, "level", level.Name());
    line := PushLogField(line, "action", action);
    line := PushFields(line, fields);
  }

  // ---- Reading a line back ----

  /** Position of the first `c`, or the length when there is none. */
  function Find(s: string, c: char): (i: nat)
    ensures i <= |s| && (i < |s| ==> s[i] == c)
    ensures forall k :: 0 <= k < i ==> s[k] != c
  {
    if s == "" || s[0] == c then 0 else 1 + Find(s[1..], c)
  }

  lemma FindAt(s: string, c: char, i: nat)
    requires i <= |s| && (i < |s| ==> s[i] == c)
    requires forall k :: 0 <= k < i ==> s[k] != c
    ensures Find(s, c) == i
  {
  }

  function HexValue(c: char): Option<nat> {
    if '0' <= c <= '9' then Some(c as int - '0' as int)
    else if 'a' <= c <= 'f' then Some(c as int - 'a' as int + 10)
    else None
  }

  function FromHex(s: string): Option<nat> {
    if s == "" then Some(0)
    else
      var high, low := FromHex(s[..|s| - 1]), HexValue(s[|s| - 1]);
      if high.Some? && low.Some? then Some(16 * high.value + low.value) else None
  }

  /** One character and the rest of the text after its escape. */
  function ReadChar(s: string): (r: Option<(char, string)>)
    ensures r.Some? ==> |r.value.1| < |s|
  {
    if s == "" then None
    else if s[0] != '\\' then Some((s[0], s[1..]))
    else if |s| == 1 then None
    else if s[1] == 'n' then Some(('\n', s[2..]))
    else if s[1] == 'r' then Some(('\r', s[2..]))
    else if s[1] == 't' then Some(('\t', s[2..]))
    else if s[1] == '"' || s[1] == '\\' then Some((s[1], s[2..]))
    else if |s| >= 3 && s[1] == 'u' && s[2] == '{' then
      var close := Find(s[3..], '}');
      var code := FromHex(s[3..][..close]);
      if close == |s[3..]| || code.None? || code.value >= 0xD800 then None
      else Some((code.value as char, s[3..][close + 1..]))
    else None
  }

  /** A quoted value after its opening quote, and the rest of the line. */
  function ReadQuoted(s: string): (r: Option<(string, string)>)
    ensures r.Some? ==> |r.value.1| < |s|
    decreases |s|
  {
    if s == "" then None
    else if s[0] == '"' then Some(("", s[1..]))
    else
      var first := ReadChar(s);
      if first.None? then None
      else
        var others := ReadQuoted(first.value.1);
        if others.None? then None
        else Some(([first.value.0] + others.value.0, others.value.1))
  }

  function ReadValue(s: string): (r: Option<(string, string)>)
    ensures r.Some? ==> |r.value.1| <= |s|
  {
    if s != "" && s[0] == '"' then ReadQuoted(s[1..])
    else var end := Find(s, ' '); Some((s[..end], s[end..]))
  }

  function ReadFields(s: string): Option<seq<Field>>
    decreases |s|
  {
    if s == "" then Some([])
    else if s[0] != ' ' then None
    else
      var equals := Find(s[1..], '=');
      if equals == |s[1..]| then None
      else
        var value := ReadValue(s[1..][equals + 1..]);
        if value.None? then None
        else
          var others := ReadFields(value.value.1);
          if others.None? then None
          else Some([Field(s[1..][..equals], value.value.0)] + others.value)
  }

  function LevelOf(name: string): Option<LogLevel> {
    match name
    case "error" => Some(Error)
    case "warn" => Some(Warn)
    case "info" => Some(Info)
    case "debug" => Some(Debug)
    case "trace" => Some(Trace)
    case _ => None
  }

  function ReadLine(line: string): Option<Record> {
    if |line| < |PREFIX| || line[..|PREFIX|] != PREFIX then None
    else
      var fields := ReadFields(line[|PREFIX|..]);
      if fields.None? || |fields.value| < 2 then None
      else if fields.value[0].key != "level" || fields.value[1].key != "action" then None
      else
        var level := LevelOf(fields.value[0].value);
        if level.None? then None
        else Some(Record(level.value, fields.value[1].value, fields.value[2..]))
  }

  lemma {:induction false} HexRoundTrip(n: nat)
    ensures FromHex(Hex(n)) == Some(n)
    ensures forall i :: 0 <= i < |Hex(n)| ==> Hex(n)[i] != '}' && !IsControl(Hex(n)[i])
  {
    var s := Hex(n);
    assert HexValue(HexDigit(n % 16)) == Some(n % 16);
    if n < 16 {
      assert s[..0] == "";
      assert FromHex(s[..0]) == Some(0);
    } else {
      HexRoundTrip(n / 16);
      assert s[..|s| - 1] == Hex(n / 16);
    }
  }

  lemma CharRoundTrip(c: char, rest: string)
    ensures var s := EscapedChar(c) + rest;
            s != "" && s[0] != '"' && ReadChar(s) == Some((c, rest))
  {
    var s := EscapedChar(c) + rest;
    if c == '"' || c == '\\' || c == '\n' || c == '\r' || c == '\t' {
      assert s[2..] == rest;
    } else if IsControl(c) {
      var hex := Hex(c as int);
      HexRoundTrip(c as int);
      assert s[3..] == hex + "}" + rest;
      FindAt(s[3..], '}', |hex|);
      assert s[3..][..|hex|] == hex;
      assert s[3..][|hex| + 1..] == rest;
    } else {
      assert s[1..] == rest;
    }
  }

  lemma {:induction false} QuotedRoundTrip(value: string, rest: string)
    ensures ReadQuoted(Escaped(value) + "\"" + rest) == Some((value, rest))
  {
    var s := Escaped(value) + "\"" + rest;
    if value == "" {
      assert s[1..] == rest;
    } else {
      var tail := Escaped(value[1..]) + "\"" + rest;
      assert s == EscapedChar(value[0]) + tail;
      CharRoundTrip(value[0], tail);
      QuotedRoundTrip(value[1..], rest);
      assert [value[0]] + value[1..] == value;
    }
  }

  lemma SplitPrefix(a: string, b: string)
    ensures (a + b)[..|a|] == a && (a + b)[|a|..] == b
  {
  }

  lemma PlainRoundTrip(value: string, rest: string)
    requires IsPlain(value) && (rest == "" || rest[0] == ' ')
    ensures ReadValue(value + rest) == Some((value, rest))
  {
    var s := value + rest;
    assert s[0] == value[0] && IsPlainChar(value[0]);
    forall k | 0 <= k < |value| ensures s[k] != ' ' {
      assert s[k] == value[k] && IsPlainChar(value[k]);
    }
    FindAt(s, ' ', |value|);
    SplitPrefix(value, rest);
  }

  lemma QuotedValue(body: string, value: string, rest: string)
    requires ReadQuoted(body + "\"" + rest) == Some((value, rest))
    ensures ReadValue("\"" + body + "\"" + rest) == Some((value, rest))
  {
    var s := "\"" + body + "\"" + rest;
    assert s[0] == '"' && s[1..] == body + "\"" + rest;
  }

  lemma ValueRoundTrip(value: string, rest: string)
    requires rest == "" || rest[0] == ' '
    ensures ReadValue(ValueText(value) + rest) == Some((value, rest))
  {
    if IsPlain(value) {
      PlainRoundTrip(value, rest);
    } else {
      QuotedRoundTrip(value, rest);
      QuotedValue(Escaped(value), value, rest);
    }
  }

  lemma KeyParts(key: string, rest: string)
    requires IsKey(key)
    ensures var s := " " + key + "=" + rest;
            && s[0] == ' ' && |s| == |key| + |rest| + 2
            && Find(s[1..], '=') == |key|
            && s[1..][..|key|] == key && s[1..][|key| + 1..] == rest
  {
    var t := (" " + key + "=" + rest)[1..];
    assert t == key + "=" + rest;
    FindAt(t, '=', |key|);
  }

  lemma FieldParts(f: Field, tail: string)
    requires IsKey(f.key) && (tail == "" || tail[0] == ' ')
    ensures var s := FieldText(f) + tail;
            && s != "" && s[0] == ' '
            && Find(s[1..], '=') == |f.key| < |s[1..]|
            && s[1..][..|f.key|] == f.key
            && ReadValue(s[1..][|f.key| + 1..]) == Some((f.value, tail))
  {
    KeyParts(f.key, ValueText(f.value) + tail);
    ValueRoundTrip(f.value, tail);
    Assoc(" " + f.key + "=", ValueText(f.value), tail);
  }

  lemma {:induction false} FieldsRoundTrip(fields: seq<Field>)
    requires forall f :: f in fields ==> IsKey(f.key)
    ensures ReadFields(FieldsText(fields)) == Some(fields)
  {
    if fields != [] {
      assert fields == [fields[0]] + fields[1..];
      FieldParts(fields[0], FieldsText(fields[1..]));
      FieldsRoundTrip(fields[1..]);
    }
  }

  /** The whole line as one list of fields, the level and action first. */
  function AllFields(r: Record): (all: seq<Field>)
    ensures |all| == 2 + |r.fields|
    ensures all[0].key == "level" && all[1].key == "action"
    ensures all[2..] == r.fields
  {
    [Field("level", r.level.Name()), Field("action", r.action)] + r.fields
  }

  lemma LineIsFields(r: Record)
    ensures LineText(r) == PREFIX + FieldsText(AllFields(r))
  {
    var all := AllFields(r);
    assert all[1..][1..] == r.fields;
    var a, b, c := FieldText(all[0]), FieldText(all[1]), FieldsText(r.fields);
    assert FieldsText(all) == a + (b + c);
    Assoc(PREFIX + a, b, c);
    Assoc(PREFIX, a, b + c);
  }

  lemma PlainKeys(r: Record)
    requires forall f :: f in r.fields ==> IsKey(f.key)
    ensures forall f :: f in AllFields(r) ==> IsKey(f.key)
  {
    var all := AllFields(r);
    forall f | f in all
      ensures IsKey(f.key)
    {
      var i :| 0 <= i < |all| && all[i] == f;
      if i >= 2 {
        assert all[2..][i - 2] == f;
      }
    }
  }

  lemma LevelRoundTrip(level: LogLevel)
    ensures LevelOf(level.Name()) == Some(level)
  {
  }

  /** Every record can be read back from its line, whatever its values hold. */
  lemma LineRoundTrip(r: Record)
    requires forall f :: f in r.fields ==> IsKey(f.key)
    ensures ReadLine(LineText(r)) == Some(r)
  {
    var all := AllFields(r);
    LineIsFields(r);
    PlainKeys(r);
    SplitPrefix(PREFIX, FieldsText(all));
    FieldsRoundTrip(all);
    LevelRoundTrip(r.level);
  }

  /** Different records never share a line. */
  lemma LinesAreDistinct(a: Record, b: Record)
    requires forall f :: f in a.fields ==> IsKey(f.key)
    requires forall f :: f in b.fields ==> IsKey(f.key)
    requires LineText(a) == LineText(b)
    ensures a == b
  {
    LineRoundTrip(a);
    LineRoundTrip(b);
  }

  /** Neither C0 nor DEL nor C1. */
  predicate NoControl(s: string) {
    forall i :: 0 <= i < |s| ==> ' ' <= s[i] && !('\U{7F}' <= s[i] <= '\U{9F}')
  }

  lemma JoinedNoControl(a: string, b: string)
    requires NoControl(a) && NoControl(b)
    ensures NoControl(a + b)
  {
  }

  lemma {:induction false} EscapedHasNoControl(value: string)
    ensures NoControl(Escaped(value))
  {
    if value != "" {
      if IsControl(value[0]) {
        HexRoundTrip(value[0] as int);
      }
      EscapedHasNoControl(value[1..]);
    }
  }

  lemma FieldHasNoControl(f: Field)
    requires IsKey(f.key)
    ensures NoControl(FieldText(f))
  {
    EscapedHasNoControl(f.value);
    assert NoControl(ValueText(f.value));
  }

  lemma {:induction false} FieldsHaveNoControl(fields: seq<Field>)
    requires forall f :: f in fields ==> IsKey(f.key)
    ensures NoControl(FieldsText(fields))
  {
    if fields != [] {
      FieldHasNoControl(fields[0]);
      FieldsHaveNoControl(fields[1..]);
      JoinedNoControl(FieldText(fields[0]), FieldsText(fields[1..]));
    }
  }

  lemma PrefixHasNoControl()
    ensures NoControl(PREFIX)
  {
  }

  lemma PrefixedNoControl(line: string, fields: seq<Field>)
    requires line == PREFIX + FieldsText(fields)
    requires forall f :: f in fields ==> IsKey(f.key)
    ensures NoControl(line)
  {
    FieldsHaveNoControl(fields);
    PrefixHasNoControl();
    JoinedNoControl(PREFIX, FieldsText(fields));
  }

  /** No value puts a raw control character into the line. */
  lemma LineHasNoControl(r: Record)
    requires forall f :: f in r.fields ==> IsKey(f.key)
    ensures NoControl(LineText(r))
  {
    LineIsFields(r);
    PlainKeys(r);
    PrefixedNoControl(LineText(r), AllFields(r));
  }
}
