/** The KEY=VALUE parser of the Chrome OS system-log collector. The collector
    script writes lines KEY=VALUE; a value opened with three double quotes on
    the key's line runs, across lines, to the next three double quotes. The
    C++ erases what it has read from the front of one string buffer; here each
    read returns what it read together with the buffer that is left. */
module Syslogs {
  import opened Strings

  const MultilineQuote: string := "\"\"\""
  const NewLineChars: set<char> := {'\r', '\n'}
  const InvalidLogEntry: string := "<invalid characters in log entry>"
  const EmptyLogEntry: string := "<no value>"

  /** ReadValue trims only these, so that an empty value does not swallow the
      line break that ends it. */
  const SpacesAndTabs: set<char> := {' ', '\t'}

  type LogDictionary = map<string, string>

  /** ReadKey: the text before the first '=' and the buffer after that '='.
      With no '=' the key is empty and the buffer is left as it is. */
  function ReadKey(data: string): (r: (string, string))
    ensures '=' !in data ==> r == ("", data)
    ensures '=' in data ==> data == r.0 + "=" + r.1 && '=' !in r.0
    ensures '=' in data ==> |r.1| < |data|
  {
    var equalSign := IndexOf(data, '=');
    if equalSign == |data| then ("", data)
    else
      assert data == data[..equalSign] + "=" + data[equalSign + 1..];
      (data[..equalSign], data[equalSign + 1..])
  }

  /** The multi-line branch of ReadValue, on a buffer that starts with the
      opening quotes: the text up to the next closing quotes and the buffer
      after them, or ("", "") when no closing quotes follow. */
  function ReadQuotedValue(t: string): (r: (string, string))
    requires StartsWith(t, MultilineQuote)
    ensures |r.1| <= |t|
    ensures || (r == ("", "") && forall k :: 3 <= k <= |t| ==> !OccursAt(t, MultilineQuote, k))
            || (&& t == MultilineQuote + r.0 + MultilineQuote + r.1
                && forall k :: 0 <= k < |r.0| ==> !OccursAt(r.0 + MultilineQuote, MultilineQuote, k))
  {
    var body := t[|MultilineQuote|..];
    assert t == MultilineQuote + body;
    var next := Find(body, MultilineQuote);
    if next == |body| then
      assert forall k :: 3 <= k <= |t| ==> !OccursAt(t, MultilineQuote, k) by {
        forall k | 3 <= k <= |t| ensures !OccursAt(t, MultilineQuote, k) {
          OccursAtShift(MultilineQuote, body, MultilineQuote, k - 3);
        }
      }
      ("", "")
    else
      var value := body[..next];
      var rest := body[next + 3..];
      assert body == value + MultilineQuote + rest by {
        assert body[next..next + 3] == MultilineQuote;
      }
      assert forall k :: 0 <= k < |value| ==> !OccursAt(value + MultilineQuote, MultilineQuote, k) by {
        forall k | 0 <= k < |value| ensures !OccursAt(value + MultilineQuote, MultilineQuote, k) {
          OccursAtExtend(value + MultilineQuote, rest, MultilineQuote, k);
        }
      }
      (value, rest)
  }

  /** The single-line branch of ReadValue: the text before the first line
      break, and the buffer from that line break on. */
  function ReadLineValue(t: string): (r: (string, string))
    ensures t == r.0 + r.1
    ensures forall k :: 0 <= k < |r.0| ==> r.0[k] !in NewLineChars
    ensures r.1 == [] || r.1[0] in NewLineChars
  {
    var endOfLine := IndexOfAny(t, NewLineChars);
    assert t == t[..endOfLine] + t[endOfLine..];
    (t[..endOfLine], t[endOfLine..])
  }

  /** ReadValue: after trimming spaces and tabs from both ends of the buffer,
      either a quoted multi-line value (both quote runs consumed; an
      unterminated one empties the buffer and yields ""), or the text up to the
      first line break, which stays in the buffer. */
  function ReadValue(data: string): (r: (string, string))
    ensures |r.1| <= |data|
    ensures var t := Trim(data, SpacesAndTabs);
      StartsWith(t, MultilineQuote) ==>
        (|| (r == ("", "") && forall k :: 3 <= k <= |t| ==> !OccursAt(t, MultilineQuote, k))
         || (&& t == MultilineQuote + r.0 + MultilineQuote + r.1
             && forall k :: 0 <= k < |r.0| ==> !OccursAt(r.0 + MultilineQuote, MultilineQuote, k)))
    ensures var t := Trim(data, SpacesAndTabs);
      !StartsWith(t, MultilineQuote) ==>
        && t == r.0 + r.1
        && (forall k :: 0 <= k < |r.0| ==> r.0[k] !in NewLineChars)
        && (r.1 == [] || r.1[0] in NewLineChars)
  {
    var t := Trim(data, SpacesAndTabs);
    if StartsWith(t, MultilineQuote) then ReadQuotedValue(t) else ReadLineValue(t)
  }

  /** What the dictionary stores for a value read from the buffer. */
  function StoredValue(value: string, isUtf8: string -> bool): (stored: string)
    ensures stored != []
    ensures !isUtf8(value) ==> stored == InvalidLogEntry
    ensures isUtf8(value) && Trim(value, AsciiWhitespace) == [] ==> stored == EmptyLogEntry
    ensures isUtf8(value) && Trim(value, AsciiWhitespace) != [] ==> stored == Trim(value, AsciiWhitespace)
  {
    if isUtf8(value) then
      var trimmed := Trim(value, AsciiWhitespace);
      if trimmed == [] then EmptyLogEntry else trimmed
    else InvalidLogEntry
  }

  /** The dictionary the parse loop ends with, starting from `logs` on the
      buffer `data`: it stops at an empty buffer or an empty trimmed key, and a
      later key overwrites an earlier equal one. Every step that goes on has
      consumed at least the '=' after its key. */
  function ParseLogs(data: string, logs: LogDictionary, isUtf8: string -> bool): LogDictionary
    decreases |data|
  {
    if data == [] then logs
    else
      var (rawKey, afterKey) := ReadKey(data);
      var key := Trim(rawKey, AsciiWhitespace);
      if key == [] then logs
      else
        var (value, rest) := ReadValue(afterKey);
        ParseLogs(rest, logs[key := StoredValue(value, isUtf8)], isUtf8)
  }

  /** The parse loop of GetSystemLogs over the text the collector wrote. */
  method GetSystemLogs(text: string, isUtf8: string -> bool) returns (logs: LogDictionary)
    ensures logs == ParseLogs(text, map[], isUtf8)
  {
    logs := map[];
    var data := text;
    while |data| > 0
      invariant ParseLogs(text, map[], isUtf8) == ParseLogs(data, logs, isUtf8)
      decreases |data|
    {
      var (rawKey, afterKey) := ReadKey(data);
      data := afterKey;
      var key := Trim(rawKey, AsciiWhitespace);
      if key != [] {
        var (value, afterValue) := ReadValue(data);
        data := afterValue;
        logs := logs[key := StoredValue(value, isUtf8)];
      } else {
        break;
      }
    }
  }

  predicate TrimmedOf(s: string, chars: set<char>)
  {
    s != [] && s[0] !in chars && s[|s| - 1] !in chars
  }

  /** Every key is non-empty, free of '=' and of surrounding ASCII
      whitespace; every value is non-empty. */
  predicate WellFormedLogs(logs: LogDictionary)
  {
    forall key :: key in logs ==> TrimmedOf(key, AsciiWhitespace) && '=' !in key && logs[key] != []
  }

  lemma TrimKeepsAbsentChar(s: string, chars: set<char>, c: char)
    requires c !in s
    ensures c !in Trim(s, chars)
  {
    var r := Trim(s, chars);
    var a := LeadingRun(s, chars);
    forall k | 0 <= k < |r| ensures r[k] != c {
      assert r[k] == s[a + k];
    }
  }

  /** A key read off the buffer and trimmed is a well-formed dictionary
      key once it is non-empty. */
  lemma ReadKeyTrimmed(data: string)
    requires Trim(ReadKey(data).0, AsciiWhitespace) != []
    ensures TrimmedOf(Trim(ReadKey(data).0, AsciiWhitespace), AsciiWhitespace)
    ensures '=' !in Trim(ReadKey(data).0, AsciiWhitespace)
  {
    TrimKeepsAbsentChar(ReadKey(data).0, AsciiWhitespace, '=');
  }

  /** Parsing only adds well-formed entries and never drops a key. */
  lemma {:induction false} ParseLogsWellFormed(data: string, logs: LogDictionary, isUtf8: string -> bool)
    requires WellFormedLogs(logs)
    ensures WellFormedLogs(ParseLogs(data, logs, isUtf8))
    ensures logs.Keys <= ParseLogs(data, logs, isUtf8).Keys
    decreases |data|
  {
    if data != [] {
      var (rawKey, afterKey) := ReadKey(data);
      var key := Trim(rawKey, AsciiWhitespace);
      if key != [] {
        var (value, rest) := ReadValue(afterKey);
        ReadKeyTrimmed(data);
        var next := logs[key := StoredValue(value, isUtf8)];
        assert WellFormedLogs(next);
        ParseLogsWellFormed(rest, next, isUtf8);
      }
    }
  }

  /** The dictionary GetSystemLogs returns is well formed. */
  lemma SystemLogsWellFormed(text: string, isUtf8: string -> bool)
    ensures WellFormedLogs(ParseLogs(text, map[], isUtf8))
  {
    ParseLogsWellFormed(text, map[], isUtf8);
  }

  function AllUtf8(s: string): bool { true }

  /** One round of the parse loop, stated on its pieces. */
  lemma ParseStep(data: string, logs: LogDictionary, isUtf8: string -> bool, key: string, value: string, rest: string)
    requires data != []
    requires Trim(ReadKey(data).0, AsciiWhitespace) == key && key != []
    requires ReadValue(ReadKey(data).1) == (value, rest)
    ensures ParseLogs(data, logs, isUtf8) == ParseLogs(rest, logs[key := StoredValue(value, isUtf8)], isUtf8)
  {
  }

  lemma ReadKeyFirstLine()
    ensures ReadKey("KEY1=\nKEY2=VALUE") == ("KEY1", "\nKEY2=VALUE")
  {
    var data := "KEY1=\nKEY2=VALUE";
    var i := IndexOf(data, '=');
    assert data[4] == '=';
    assert i == 4;
    assert data[..4] == "KEY1" && data[5..] == "\nKEY2=VALUE";
  }

  lemma ReadKeySecondLine()
    ensures ReadKey("\nKEY2=VALUE") == ("\nKEY2", "VALUE")
  {
    var data := "\nKEY2=VALUE";
    var i := IndexOf(data, '=');
    assert data[5] == '=';
    assert i == 5;
    assert data[..5] == "\nKEY2" && data[6..] == "VALUE";
  }

  lemma TrimmedKeys()
    ensures Trim("KEY1", AsciiWhitespace) == "KEY1"
    ensures Trim("\nKEY2", AsciiWhitespace) == "KEY2"
  {
    assert LeadingRun("KEY1", AsciiWhitespace) == 0;
    assert TrailingRun("KEY1", AsciiWhitespace) == 0;
    assert LeadingRun("KEY2", AsciiWhitespace) == 0;
    assert LeadingRun("\nKEY2", AsciiWhitespace) == 1;
    assert TrailingRun("\nKEY2", AsciiWhitespace) == 0;
  }

  lemma ReadEmptyValue()
    ensures ReadValue("\nKEY2=VALUE") == ("", "\nKEY2=VALUE")
  {
    var t := "\nKEY2=VALUE";
    assert LeadingRun(t, SpacesAndTabs) == 0;
    assert TrailingRun(t, SpacesAndTabs) == 0;
    assert Trim(t, SpacesAndTabs) == t;
    assert !StartsWith(t, MultilineQuote) by { assert t[0] != '"'; }
    assert IndexOfAny(t, NewLineChars) == 0;
  }

  lemma ReadLastValue()
    ensures ReadValue("VALUE") == ("VALUE", "")
    ensures Trim("VALUE", AsciiWhitespace) == "VALUE"
  {
    var t := "VALUE";
    assert LeadingRun(t, SpacesAndTabs) == 0;
    assert TrailingRun(t, SpacesAndTabs) == 0;
    assert Trim(t, SpacesAndTabs) == t;
    assert !StartsWith(t, MultilineQuote) by { assert t[0] != '"'; }
    assert IndexOfAny(t, NewLineChars) == 5;
    assert LeadingRun(t, AsciiWhitespace) == 0;
    assert TrailingRun(t, AsciiWhitespace) == 0;
  }

  /** An empty value followed by a line break does not swallow the next line. */
  lemma EmptyValueKeepsNextLine()
    ensures ParseLogs("KEY1=\nKEY2=VALUE", map[], AllUtf8) == map["KEY1" := EmptyLogEntry, "KEY2" := "VALUE"]
  {
    ReadKeyFirstLine();
    ReadKeySecondLine();
    TrimmedKeys();
    ReadEmptyValue();
    ReadLastValue();
    assert StoredValue("", AllUtf8) == EmptyLogEntry;
    ParseStep("KEY1=\nKEY2=VALUE", map[], AllUtf8, "KEY1", "", "\nKEY2=VALUE");
    ParseStep("\nKEY2=VALUE", map["KEY1" := EmptyLogEntry], AllUtf8, "KEY2", "VALUE", "");
  }

  /** A buffer without '=' ends the loop at once, adding nothing. */
  lemma NoEqualSignStops(data: string, logs: LogDictionary, isUtf8: string -> bool)
    requires '=' !in data
    ensures ParseLogs(data, logs, isUtf8) == logs
  {
    if data != [] {
      assert ReadKey(data).0 == "";
      assert Trim("", AsciiWhitespace) == [];
    }
  }

  /** An unterminated multi-line value empties the buffer: the key is stored
      with the empty-value marker and the loop ends. */
  lemma UnterminatedQuoteEndsParse()
    ensures ParseLogs("A=\"\"\"x", map[], AllUtf8) == map["A" := EmptyLogEntry]
  {
    var data := "A=\"\"\"x";
    assert IndexOf(data, '=') == 1;
    assert data[..1] == "A" && data[2..] == "\"\"\"x";
    assert Trim("A", AsciiWhitespace) == "A" by {
      assert LeadingRun("A", AsciiWhitespace) == 0;
      assert TrailingRun("A", AsciiWhitespace) == 0;
    }
    var t := "\"\"\"x";
    assert LeadingRun(t, SpacesAndTabs) == 0;
    assert TrailingRun(t, SpacesAndTabs) == 0;
    assert Trim(t, SpacesAndTabs) == t;
    assert StartsWith(t, MultilineQuote);
    assert t[3..] == "x";
    assert Find("x", MultilineQuote) == 1;
    assert ReadValue(t) == ("", "");
    assert StoredValue("", AllUtf8) == EmptyLogEntry;
    ParseStep(data, map[], AllUtf8, "A", "", "");
  }

  lemma TrimUntouched(s: string, chars: set<char>)
    requires TrimmedOf(s, chars)
    ensures Trim(s, chars) == s
  {
    assert LeadingRun(s, chars) == 0;
    assert TrailingRun(s, chars) == 0;
  }

  lemma ReadKeyAt(data: string, i: nat)
    requires i < |data| && data[i] == '='
    requires forall k :: 0 <= k < i ==> data[k] != '='
    ensures ReadKey(data) == (data[..i], data[i + 1..])
  {
    assert IndexOf(data, '=') == i;
  }

  lemma ReadLineAt(data: string, i: nat)
    requires TrimmedOf(data, SpacesAndTabs) && data[0] != '"'
    requires i <= |data| && (i < |data| ==> data[i] in NewLineChars)
    requires forall k :: 0 <= k < i ==> data[k] !in NewLineChars
    ensures ReadValue(data) == (data[..i], data[i..])
  {
    TrimUntouched(data, SpacesAndTabs);
    assert IndexOfAny(data, NewLineChars) == i;
  }

  lemma DuplicateFirstRound()
    ensures ParseLogs("A=1\nA=2", map[], AllUtf8) == ParseLogs("\nA=2", map["A" := "1"], AllUtf8)
  {
    var data := "A=1\nA=2";
    ReadKeyAt(data, 1);
    assert data[..1] == "A" && data[2..] == "1\nA=2";
    TrimUntouched("A", AsciiWhitespace);
    var t := "1\nA=2";
    ReadLineAt(t, 1);
    assert t[..1] == "1" && t[1..] == "\nA=2";
    TrimUntouched("1", AsciiWhitespace);
    ParseStep(data, map[], AllUtf8, "A", "1", "\nA=2");
  }

  lemma DuplicateSecondRound()
    ensures ParseLogs("\nA=2", map["A" := "1"], AllUtf8) == map["A" := "2"]
  {
    var second := "\nA=2";
    ReadKeyAt(second, 2);
    assert second[..2] == "\nA" && second[3..] == "2";
    assert Trim("\nA", AsciiWhitespace) == "A" by {
      assert LeadingRun("\nA", AsciiWhitespace) == 1;
      assert TrailingRun("\nA", AsciiWhitespace) == 0;
    }
    ReadLineAt("2", 1);
    TrimUntouched("2", AsciiWhitespace);
    ParseStep(second, map["A" := "1"], AllUtf8, "A", "2", "");
  }

  /** A later line with the same key replaces the earlier value. */
  lemma DuplicateKeyOverwrites()
    ensures ParseLogs("A=1\nA=2", map[], AllUtf8) == map["A" := "2"]
  {
    DuplicateFirstRound();
    DuplicateSecondRound();
  }

  // ---------------------------------------------------------------------------
  // Collection contexts

  datatype Context = SyslogsFeedback | SyslogsSysinfo | SyslogsNetwork | SyslogsDefault

  const ContextFeedback: string := "feedback"
  const ContextSysInfo: string := "sysinfo"
  const ContextNetwork: string := "network"

  /** GetContextString: the argument handed to the collection script. */
  function GetContextString(context: Context): (s: string)
  {
    match context
    case SyslogsFeedback => ContextFeedback
    case SyslogsSysinfo => ContextSysInfo
    case SyslogsNetwork => ContextNetwork
    case SyslogsDefault => ContextSysInfo
  }

  /** The default context collects the same logs as the sysinfo one; every
      other context has its own script argument, and every argument is one
      the script knows. */
  lemma ContextStrings(c1: Context, c2: Context)
    ensures GetContextString(c1) in {ContextFeedback, ContextSysInfo, ContextNetwork}
    ensures GetContextString(SyslogsDefault) == GetContextString(SyslogsSysinfo)
    ensures GetContextString(c1) == GetContextString(c2) <==>
      (c1 == c2 || {c1, c2} == {SyslogsDefault, SyslogsSysinfo})
  {
  }
}
