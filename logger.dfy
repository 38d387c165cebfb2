/** The server log (`Logger`): the shape of a record (`formatMessage`), its `JSON.stringify`
    text, the daily file it is appended to, the console echo outside production and the level
    gating of `debug`. The clock is a parameter (the source reads it once for the record and once
    for the file name); a failing `appendFileSync` is the parameter `appendFails`. */
module Logger {
  import opened Wrappers
  import opened Strings
  import opened Numerals
  import opened Environment

  /** The JavaScript values a caller passes as `data` (numbers are integers here). */
  datatype JsValue = Null | Bool(b: bool) | Num(n: int) | Str(s: string) | Obj(members: seq<Member>)
  datatype Member = Member(key: string, value: JsValue)

  /** JavaScript truthiness; every object is truthy. */
  predicate Truthy(v: JsValue) {
    match v
    case Null => false
    case Bool(b) => b
    case Num(n) => n != 0
    case Str(s) => s != ""
    case Obj(_) => true
  }

  /** The entry `formatMessage` builds; `data` is present only when it was truthy. */
  datatype LogRecord = LogRecord(timestamp: string, level: string, message: string, data: Option<JsValue>)

  /** `formatMessage(level, message, data)` before stringification. */
  function FormatRecord(level: string, message: string, data: JsValue, timestamp: string): (r: LogRecord)
    ensures r.timestamp == timestamp && r.message == message
    ensures |r.level| == |level| && forall i :: 0 <= i < |level| ==> r.level[i] == UpperChar(level[i])
    ensures r.data.Some? <==> Truthy(data)
    ensures r.data.Some? ==> r.data.value == data
  {
    LogRecord(timestamp, ToUpper(level), message, if Truthy(data) then Some(data) else None)
  }

  // ---------------------------------------------------------------------------------------
  // JSON.stringify

  /** The escape `JSON.stringify` writes for one character of a string. */
  function EscapeChar(c: char): (r: string)
    ensures r != [] && '\n' !in r
    ensures (r[0] == '\\') <==> (c == '"' || c == '\\' || c < ' ')
  {
    if c == '"' then "\\\""
    else if c == '\\' then "\\\\"
    else if c == '\U{0008}' then "\\b"
    else if c == '\U{000C}' then "\\f"
    else if c == '\n' then "\\n"
    else if c == '\r' then "\\r"
    else if c == '\t' then "\\t"
    else if c < ' ' then "\\u00" + [DigitChar(c as int / 16), DigitChar(c as int % 16)]
    else [c]
  }

  function Escape(s: string): (r: string)
    ensures '\n' !in r
  {
    if s == [] then [] else EscapeChar(s[0]) + Escape(s[1..])
  }

  /** A JSON string literal. */
  function JsonString(s: string): (r: string)
    ensures '\n' !in r
  {
    "\"" + Escape(s) + "\""
  }

  /** Reading an escaped string back, escape by escape. */
  function Unescape(t: string): string {
    if t == [] then []
    else if t[0] == '\\' && |t| >= 2 then
      var e := t[1];
      if e == '"' then ['"'] + Unescape(t[2..])
      else if e == '\\' then ['\\'] + Unescape(t[2..])
      else if e == 'b' then ['\U{0008}'] + Unescape(t[2..])
      else if e == 'f' then ['\U{000C}'] + Unescape(t[2..])
      else if e == 'n' then ['\n'] + Unescape(t[2..])
      else if e == 'r' then ['\r'] + Unescape(t[2..])
      else if e == 't' then ['\t'] + Unescape(t[2..])
      else if e == 'u' && |t| >= 6 && IsNumeral(t[2..6], 16) && FromRadix(t[2..6], 16) < 0xD800 then
        [FromRadix(t[2..6], 16) as char] + Unescape(t[6..])
      else [t[0]] + Unescape(t[1..])
    else [t[0]] + Unescape(t[1..])
  }

  lemma UnescapeEscapeChar(c: char, rest: string)
    ensures Unescape(EscapeChar(c) + rest) == [c] + Unescape(rest)
  {
    var t := EscapeChar(c) + rest;
    if c < ' ' && c != '\U{0008}' && c != '\U{000C}' && c != '\n' && c != '\r' && c != '\t' {
      UnescapeUnicodeEscape(c, rest);
    } else if c == '"' || c == '\\' || c < ' ' {
      assert t[2..] == rest;
    } else {
      assert t[1..] == rest;
    }
  }

  /** A control character without a short escape is written `\u00hl` and read back. */
  lemma UnescapeUnicodeEscape(c: char, rest: string)
    requires c < ' ' && c != '\U{0008}' && c != '\U{000C}' && c != '\n' && c != '\r' && c != '\t'
    ensures Unescape(EscapeChar(c) + rest) == [c] + Unescape(rest)
  {
    var t := EscapeChar(c) + rest;
    var hi, lo := c as int / 16, c as int % 16;
    assert t[2..6] == ['0', '0', DigitChar(hi), DigitChar(lo)];
    HexPairValue(hi, lo);
    assert t[6..] == rest;
  }

  /** The four hexadecimal digits `00hl` denote `h * 16 + l`. */
  lemma HexPairValue(hi: nat, lo: nat)
    requires hi < 16 && lo < 16
    ensures IsNumeral(['0', '0', DigitChar(hi), DigitChar(lo)], 16)
    ensures FromRadix(['0', '0', DigitChar(hi), DigitChar(lo)], 16) == hi * 16 + lo
  {
    var h, l := DigitChar(hi), DigitChar(lo);
    var w := ['0', '0', h, l];
    assert w[..3] == ['0', '0', h];
    assert ['0', '0', h][..2] == ['0', '0'];
    assert ['0', '0'][..1] == ['0'];
    assert ['0'][..0] == [];
    assert FromRadix(['0'], 16) == 0;
    assert FromRadix(['0', '0'], 16) == 0;
    assert FromRadix(['0', '0', h], 16) == hi;
  }

  /** What `JSON.stringify` escaped, unescaping restores. */
  lemma {:induction false} UnescapeEscape(s: string)
    ensures Unescape(Escape(s)) == s
  {
    if s != [] {
      assert Escape(s) == EscapeChar(s[0]) + Escape(s[1..]);
      UnescapeEscapeChar(s[0], Escape(s[1..]));
      UnescapeEscape(s[1..]);
    }
  }

  /** A JSON number for an integer. */
  function NumberText(n: int): (r: string)
    ensures '\n' !in r
  {
    var digits := if n < 0 then ToRadix(-n, 10) else ToRadix(n, 10);
    if n < 0 then "-" + digits else digits
  }

  /** `JSON.stringify(v)`, without white space. */
  function Serialize(v: JsValue): (r: string)
    ensures '\n' !in r
    decreases v, 1
  {
    match v
    case Null => "null"
    case Bool(b) => if b then "true" else "false"
    case Num(n) => NumberText(n)
    case Str(s) => JsonString(s)
    case Obj(ms) => "{" + SerializeMembers(ms) + "}"
  }

  function SerializeMembers(ms: seq<Member>): (r: string)
    ensures '\n' !in r
    decreases ms, 0
  {
    if ms == [] then ""
    else
      var first := JsonString(ms[0].key) + ":" + Serialize(ms[0].value);
      if |ms| == 1 then first else first + "," + SerializeMembers(ms[1..])
  }

  /** `JSON.stringify(logEntry)`: the keys in insertion order, `data` last and only when present.
      The text has no newline, so every record is one line of the file. */
  function RecordText(r: LogRecord): (t: string)
    ensures '\n' !in t
  {
    Serialize(Obj(RecordMembers(r)))
  }

  /** The members of `logEntry`: timestamp, level, message, then `data` when present. */
  function RecordMembers(r: LogRecord): seq<Member> {
    [Member("timestamp", Str(r.timestamp)), Member("level", Str(r.level)), Member("message", Str(r.message))]
    + (if r.data.Some? then [Member("data", r.data.value)] else [])
  }

  // ---------------------------------------------------------------------------------------
  // Files and console

  /** `${new Date().toISOString().split('T')[0]}.log`. */
  function LogFileName(iso: string): (r: string)
    ensures EndsWith(r, ".log")
    ensures var date := r[..|r| - 4]; StartsWith(iso, date) && 'T' !in date
  {
    ConcatEdges(BeforeFirst(iso, 'T'), ".log");
    assert (BeforeFirst(iso, 'T') + ".log")[..|BeforeFirst(iso, 'T')|] == BeforeFirst(iso, 'T');
    BeforeFirst(iso, 'T') + ".log"
  }

  /** The file is named after the date part of the ISO timestamp. */
  lemma LogFileNameOfIso(date: string, time: string)
    requires 'T' !in date
    ensures LogFileName(date + "T" + time) == date + ".log"
  {
    BeforeFirstOfConcat(date, 'T', time);
  }

  /** The console colour of a level, `colors[level] || ''`. */
  function Color(level: string): string {
    if level == "error" then "\U{001b}[31m"
    else if level == "warn" then "\U{001b}[33m"
    else if level == "info" then "\U{001b}[36m"
    else if level == "debug" then "\U{001b}[35m"
    else ""
  }

  const Reset := "\U{001b}[0m"

  /** The files after appending `text` to `name` (a missing file is created). */
  function Appended(files: map<string, string>, name: string, text: string): (r: map<string, string>)
    ensures name in r && r[name] == (if name in files then files[name] else "") + text
    ensures forall n :: n in files && n != name ==> n in r && r[n] == files[n]
    ensures r.Keys == files.Keys + {name}
  {
    files[name := (if name in files then files[name] else "") + text]
  }

  /** The logger: the log files by name and the console lines written so far. */
  class Log {
    const env: Env
    var files: map<string, string>
    var console: seq<string>

    constructor(env: Env)
      ensures this.env == env && files == map[] && console == []
    {
      this.env := env;
      files := map[];
      console := [];
    }

    /** `log(level, message, data)`: echo outside production, then append the record and one
        newline to the day's file; returns whether `appendFileSync` threw. */
    method Write(level: string, message: string, data: JsValue, recordTime: string, fileTime: string, appendFails: bool)
      returns (threw: bool)
      modifies this
      ensures threw == appendFails
      ensures var line := RecordText(FormatRecord(level, message, data, recordTime));
        && console == old(console) + (if IsProduction(env) then [] else [Color(level) + line + Reset])
        && files == (if appendFails then old(files) else Appended(old(files), LogFileName(fileTime), line + "\n"))
    {
      var line := RecordText(FormatRecord(level, message, data, recordTime));
      if !IsProduction(env) {
        console := console + [Color(level) + line + Reset];
      }
      if appendFails {
        return true;
      }
      files := Appended(files, LogFileName(fileTime), line + "\n");
      threw := false;
    }

    method Error(message: string, data: JsValue, recordTime: string, fileTime: string, appendFails: bool)
      returns (threw: bool)
      modifies this
      ensures threw == appendFails
      ensures var line := RecordText(FormatRecord("error", message, data, recordTime));
        && console == old(console) + (if IsProduction(env) then [] else [Color("error") + line + Reset])
        && files == (if appendFails then old(files) else Appended(old(files), LogFileName(fileTime), line + "\n"))
    {
      threw := Write("error", message, data, recordTime, fileTime, appendFails);
    }

    method Warn(message: string, data: JsValue, recordTime: string, fileTime: string, appendFails: bool)
      returns (threw: bool)
      modifies this
      ensures threw == appendFails
      ensures var line := RecordText(FormatRecord("warn", message, data, recordTime));
        && console == old(console) + (if IsProduction(env) then [] else [Color("warn") + line + Reset])
        && files == (if appendFails then old(files) else Appended(old(files), LogFileName(fileTime), line + "\n"))
    {
      threw := Write("warn", message, data, recordTime, fileTime, appendFails);
    }

    method Info(message: string, data: JsValue, recordTime: string, fileTime: string, appendFails: bool)
      returns (threw: bool)
      modifies this
      ensures threw == appendFails
      ensures var line := RecordText(FormatRecord("info", message, data, recordTime));
        && console == old(console) + (if IsProduction(env) then [] else [Color("info") + line + Reset])
        && files == (if appendFails then old(files) else Appended(old(files), LogFileName(fileTime), line + "\n"))
    {
      threw := Write("info", message, data, recordTime, fileTime, appendFails);
    }

    /** `debug` writes only when NODE_ENV is "development"; otherwise nothing changes. */
    method Debug(message: string, data: JsValue, recordTime: string, fileTime: string, appendFails: bool)
      returns (threw: bool)
      modifies this
      ensures !IsDevelopment(env) ==> !threw && console == old(console) && files == old(files)
      ensures IsDevelopment(env) ==> threw == appendFails
      ensures IsDevelopment(env) ==>
        var line := RecordText(FormatRecord("debug", message, data, recordTime));
        && console == old(console) + [Color("debug") + line + Reset]
        && files == (if appendFails then old(files) else Appended(old(files), LogFileName(fileTime), line + "\n"))
    {
      if IsDevelopment(env) {
        threw := Write("debug", message, data, recordTime, fileTime, appendFails);
      } else {
        threw := false;
      }
    }
  }
}
