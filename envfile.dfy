/**
 * The `.env` helpers of the account set-up script: reading a file into lines the way Python
 * iterates over it, looking a key up case-insensitively, and replacing or appending a
 * `key=value` line. The file is its text (None when it does not exist); what the update writes
 * is the list of lines handed to `writelines`, and the new file is their concatenation.
 */
module EnvFile {
  import opened Common
  import opened Text
  import Numbers

  /** `''.join(lines)`, what `writelines` produces. */
  function Concat(lines: seq<string>): string
  {
    if lines == [] then [] else lines[0] + Concat(lines[1..])
  }

  lemma {:induction false} ConcatAppend(a: seq<string>, b: seq<string>)
    ensures Concat(a + b) == Concat(a) + Concat(b)
  {
    if a != [] {
      assert (a + b)[1..] == a[1..] + b;
      ConcatAppend(a[1..], b);
    } else {
      assert a + b == b;
    }
  }

  predicate EndsWithNewline(line: string)
  {
    line != [] && line[|line| - 1] == '\n'
  }

  /** A line as Python reads it: non-empty, with a newline at most as its last character. */
  predicate IsLine(line: string)
  {
    line != [] && '\n' !in line[..|line| - 1]
  }

  /** Lines as read from a file: only the last one may lack its newline. */
  predicate WellFormed(lines: seq<string>)
  {
    && (forall i :: 0 <= i < |lines| ==> IsLine(lines[i]))
    && (forall i :: 0 <= i < |lines| - 1 ==> EndsWithNewline(lines[i]))
  }

  /** The length of the first line of `s`: up to and including the first newline, or all of `s`. */
  function LineLength(s: string): (n: nat)
    requires s != []
    ensures 0 < n <= |s|
    ensures '\n' !in s[..n - 1]
    ensures n < |s| ==> s[n - 1] == '\n'
  {
    if s[0] == '\n' || |s| == 1 then 1
    else
      var m := LineLength(s[1..]);
      assert s[..m] == [s[0]] + s[1..][..m - 1];
      m + 1
  }

  /**
   * Universal newlines, as `open(path, "r")` reads text: "\r\n" and a lone "\r" both become "\n".
   * No carriage return survives, and text without one is read as it is.
   */
  function Universal(s: string): (t: string)
    ensures '\r' !in t
    ensures '\r' !in s ==> t == s
    ensures |t| <= |s|
  {
    if s == [] then []
    else if s[0] == '\r' then "\n" + Universal(if |s| > 1 && s[1] == '\n' then s[2..] else s[1..])
    else [s[0]] + Universal(s[1..])
  }

  /** Splitting translated text into lines (iterating over the file, or `readlines()`): each line keeps its newline. */
  function ReadLines(s: string): (lines: seq<string>)
    ensures Concat(lines) == s
    decreases |s|
  {
    if s == [] then []
    else
      var n := LineLength(s);
      assert s == s[..n] + s[n..];
      [s[..n]] + ReadLines(s[n..])
  }

  /** Only the last line read may lack its newline. */
  lemma {:induction false} ReadLinesWellFormed(s: string)
    ensures WellFormed(ReadLines(s))
    decreases |s|
  {
    if s != [] {
      var n := LineLength(s);
      ReadLinesWellFormed(s[n..]);
      WellFormedCons(s[..n], ReadLines(s[n..]));
    }
  }

  lemma {:induction false} LineLengthOf(line: string, rest: string)
    requires IsLine(line) && (rest != [] ==> EndsWithNewline(line))
    ensures LineLength(line + rest) == |line|
    decreases |line|
  {
    var s := line + rest;
    if |line| > 1 {
      assert s[0] == line[..|line| - 1][0];
      assert s[1..] == line[1..] + rest;
      assert line[1..][..|line[1..]| - 1] == line[..|line| - 1][1..];
      LineLengthOf(line[1..], rest);
    }
  }

  /** Reading back well-formed lines that were written out gives the same lines. */
  lemma {:induction false} ReadConcat(lines: seq<string>)
    requires WellFormed(lines)
    ensures ReadLines(Concat(lines)) == lines
  {
    if lines != [] {
      var s := Concat(lines);
      var rest := lines[1..];
      assert WellFormed(rest) by {
        assert forall i :: 0 <= i < |rest| ==> rest[i] == lines[i + 1];
      }
      LineLengthOf(lines[0], Concat(rest));
      assert s[..|lines[0]|] == lines[0];
      assert s[|lines[0]|..] == Concat(rest);
      ReadConcat(rest);
    }
  }

  /** The test both functions apply: `line.strip().upper().startswith(f"{key.upper()}=")`. */
  predicate Matches(line: string, key: string)
  {
    StartsWith(ToUpper(Strip(line)), ToUpper(key) + "=")
  }

  /** `s.split(c, 1)[1]`: the text after the first `c` (empty when there is none). */
  function TextAfter(s: string, c: char): string
  {
    if s == [] then [] else if s[0] == c then s[1..] else TextAfter(s[1..], c)
  }

  /** The value of the first matching line, scanning in file order. */
  function LookUp(lines: seq<string>, key: string): Option<string>
  {
    if lines == [] then None
    else if Matches(lines[0], key) then Some(TextAfter(Strip(lines[0]), '='))
    else LookUp(lines[1..], key)
  }

  /** `get_env_value`: None for a missing file or when no line matches. */
  function GetEnvValue(file: Option<string>, key: string): Option<string>
  {
    if file.None? then None else LookUp(FileLines(file), key)
  }

  /** The lines a text-mode read yields: none for a missing file. */
  function FileLines(file: Option<string>): seq<string>
  {
    if file.None? then [] else ReadLines(Universal(file.value))
  }

  /**
   * The lookup is a first match: it yields a value exactly when some line matches, and that
   * value comes from the earliest matching line.
   */
  lemma {:induction false} LookUpFirstMatch(lines: seq<string>, key: string)
    ensures LookUp(lines, key).None? <==> forall i :: 0 <= i < |lines| ==> !Matches(lines[i], key)
    ensures LookUp(lines, key).Some? ==>
      exists i :: 0 <= i < |lines| && Matches(lines[i], key)
        && (forall j :: 0 <= j < i ==> !Matches(lines[j], key))
        && LookUp(lines, key).value == TextAfter(Strip(lines[i]), '=')
  {
    hide Matches, Strip, TextAfter;
    if lines != [] {
      LookUpFirstMatch(lines[1..], key);
      assert forall i :: 0 < i < |lines| ==> lines[i] == lines[1..][i - 1];
      if !Matches(lines[0], key) && LookUp(lines, key).Some? {
        var i :| 0 <= i < |lines[1..]| && Matches(lines[1..][i], key)
          && (forall j :: 0 <= j < i ==> !Matches(lines[1..][j], key))
          && LookUp(lines[1..], key).value == TextAfter(Strip(lines[1..][i]), '=');
        assert forall j :: 0 < j < i + 1 ==> lines[j] == lines[1..][j - 1];
        assert Matches(lines[i + 1], key);
      }
    }
  }

  /** The line `f"{key}={value}\n"`. */
  function EnvLine(key: string, value: string): string
  {
    key + "=" + value + "\n"
  }

  /** Some line matches the key. */
  predicate AnyMatch(lines: seq<string>, key: string)
  {
    lines != [] && (Matches(lines[0], key) || AnyMatch(lines[1..], key))
  }

  lemma {:induction false} AnyMatchIndex(lines: seq<string>, key: string)
    ensures AnyMatch(lines, key) <==> exists i :: 0 <= i < |lines| && Matches(lines[i], key)
  {
    if lines != [] {
      AnyMatchIndex(lines[1..], key);
      if AnyMatch(lines[1..], key) {
        var i :| 0 <= i < |lines[1..]| && Matches(lines[1..][i], key);
        assert lines[i + 1] == lines[1..][i];
      }
      if exists i :: 0 <= i < |lines| && Matches(lines[i], key) {
        var i :| 0 <= i < |lines| && Matches(lines[i], key);
        if i > 0 {
          assert lines[1..][i - 1] == lines[i];
        }
      }
    }
  }

  lemma {:induction false} AnyMatchConcat(a: seq<string>, b: seq<string>, key: string)
    ensures AnyMatch(a + b, key) <==> AnyMatch(a, key) || AnyMatch(b, key)
  {
    if a == [] {
      assert a + b == b;
    } else {
      assert (a + b)[1..] == a[1..] + b;
      assert (a + b)[0] == a[0];
      AnyMatchConcat(a[1..], b, key);
    }
  }

  lemma {:induction false} LookUpSomeIffAnyMatch(lines: seq<string>, key: string)
    ensures LookUp(lines, key).Some? <==> AnyMatch(lines, key)
  {
    if lines != [] {
      LookUpSomeIffAnyMatch(lines[1..], key);
    }
  }

  /** Every matching line replaced by the new line, every other line kept, in order. */
  function Replaced(lines: seq<string>, key: string, value: string): (r: seq<string>)
    ensures |r| == |lines|
  {
    if lines == [] then []
    else [if Matches(lines[0], key) then EnvLine(key, value) else lines[0]] + Replaced(lines[1..], key, value)
  }

  /** `lines[-1][-1] != "\n"`: the file does not end with a newline. */
  predicate NeedsSeparator(lines: seq<string>)
  {
    lines != [] && !EndsWithNewline(lines[|lines| - 1])
  }

  /** The `new_lines` that `update_env_file` writes. */
  function UpdatedLines(lines: seq<string>, key: string, value: string): seq<string>
  {
    Replaced(lines, key, value)
      + (if AnyMatch(lines, key) then []
         else (if NeedsSeparator(lines) then ["\n"] else []) + [EnvLine(key, value)])
  }

  /** `update_env_file`, returning what it writes. */
  method UpdateEnvFile(file: Option<string>, key: string, value: string) returns (newLines: seq<string>)
    ensures newLines == UpdatedLines(FileLines(file), key, value)
  {
    hide Matches, ReadLines;
    var lines := FileLines(file);
    var keyFound := false;
    newLines := [];
    var i := 0;
    while i < |lines|
      invariant 0 <= i <= |lines|
      invariant newLines == Replaced(lines[..i], key, value)
      invariant keyFound <==> AnyMatch(lines[..i], key)
    {
      ScanStep(lines, i, key, value);
      if Matches(lines[i], key) {
        newLines := newLines + [EnvLine(key, value)];
        keyFound := true;
      } else {
        newLines := newLines + [lines[i]];
      }
      i := i + 1;
    }
    assert lines[..i] == lines;
    if !keyFound {
      if |lines| > 0 && !EndsWithNewline(lines[|lines| - 1]) {
        newLines := newLines + ["\n"];
      }
      newLines := newLines + [EnvLine(key, value)];
    }
  }

  /** One more line scanned: its replacement is appended, and it may be the first match. */
  lemma {:induction false} ScanStep(lines: seq<string>, i: nat, key: string, value: string)
    requires i < |lines|
    ensures Replaced(lines[..i + 1], key, value)
         == Replaced(lines[..i], key, value) + [if Matches(lines[i], key) then EnvLine(key, value) else lines[i]]
    ensures AnyMatch(lines[..i + 1], key) <==> AnyMatch(lines[..i], key) || Matches(lines[i], key)
  {
    assert lines[..i + 1] == lines[..i] + [lines[i]];
    ReplacedAppend(lines[..i], lines[i], key, value);
    AnyMatchConcat(lines[..i], [lines[i]], key);
    SingleMatch(lines[i], key);
  }

  lemma {:induction false} ReplacedAppend(lines: seq<string>, line: string, key: string, value: string)
    ensures Replaced(lines + [line], key, value)
         == Replaced(lines, key, value) + [if Matches(line, key) then EnvLine(key, value) else line]
  {
    ReplacedConcat(lines, [line], key, value);
  }

  lemma {:induction false} ReplacedConcat(a: seq<string>, b: seq<string>, key: string, value: string)
    ensures Replaced(a + b, key, value) == Replaced(a, key, value) + Replaced(b, key, value)
  {
    if a == [] {
      assert a + b == b;
    } else {
      assert (a + b)[1..] == a[1..] + b;
      assert (a + b)[0] == a[0];
      ReplacedConcat(a[1..], b, key, value);
    }
  }

  lemma {:induction false} ReplacedAt(lines: seq<string>, key: string, value: string, i: nat)
    requires i < |lines|
    ensures Replaced(lines, key, value)[i] == if Matches(lines[i], key) then EnvLine(key, value) else lines[i]
  {
    if i > 0 {
      ReplacedAt(lines[1..], key, value, i - 1);
    }
  }

  /** The new file's text. */
  function NewContent(file: Option<string>, key: string, value: string): string
  {
    Concat(UpdatedLines(FileLines(file), key, value))
  }

  /**
   * The shape of the update: matching lines are replaced and all others copied in place; the
   * line count is unchanged when the key was found, and otherwise grows by one, or by two when a
   * separating newline is needed, with the new line last.
   */
  lemma {:induction false} UpdatedLinesShape(lines: seq<string>, key: string, value: string)
    ensures var r := UpdatedLines(lines, key, value);
      && (forall i :: 0 <= i < |lines| ==> r[i] == if Matches(lines[i], key) then EnvLine(key, value) else lines[i])
      && (AnyMatch(lines, key) ==> |r| == |lines|)
      && (!AnyMatch(lines, key) ==>
            && |r| == |lines| + (if NeedsSeparator(lines) then 2 else 1)
            && r[|r| - 1] == EnvLine(key, value)
            && (NeedsSeparator(lines) ==> r[|lines|] == "\n"))
  {
    var r := UpdatedLines(lines, key, value);
    forall i | 0 <= i < |lines|
      ensures r[i] == if Matches(lines[i], key) then EnvLine(key, value) else lines[i]
    {
      ReplacedAt(lines, key, value, i);
    }
  }

  /**
   * A key the round trip works for: no line break ('\n' or '\r', which reading translates) and
   * no '=', and not starting with white space.
   */
  predicate SafeKey(key: string)
  {
    '\n' !in key && '\r' !in key && '=' !in key && (key == [] || !IsSpace(key[0]))
  }

  /** A value the round trip works for: no line break, and not ending in white space. */
  predicate SafeValue(value: string)
  {
    '\n' !in value && '\r' !in value && (value == [] || !IsSpace(value[|value| - 1]))
  }

  lemma {:induction false} ConcatNoReturn(lines: seq<string>)
    requires forall i :: 0 <= i < |lines| ==> '\r' !in lines[i]
    ensures '\r' !in Concat(lines)
  {
    if lines != [] {
      assert forall i :: 0 <= i < |lines[1..]| ==> lines[1..][i] == lines[i + 1];
      ConcatNoReturn(lines[1..]);
    }
  }

  lemma {:induction false} ReadLinesNoReturn(s: string)
    requires '\r' !in s
    ensures forall i :: 0 <= i < |ReadLines(s)| ==> '\r' !in ReadLines(s)[i]
    decreases |s|
  {
    if s != [] {
      var n := LineLength(s);
      assert s == s[..n] + s[n..];
      ReadLinesNoReturn(s[n..]);
    }
  }

  /**
   * The text written contains no carriage return when the key and value contain none, so writing
   * it out and reading it back involves no newline translation.
   */
  lemma NewContentNoReturn(file: Option<string>, key: string, value: string)
    requires '\r' !in key && '\r' !in value
    ensures '\r' !in NewContent(file, key, value)
  {
    hide Matches, ReadLines, Replaced, AnyMatch;
    var lines := FileLines(file);
    if file.Some? {
      ReadLinesNoReturn(Universal(file.value));
    }
    var r := UpdatedLines(lines, key, value);
    UpdatedLinesShape(lines, key, value);
    assert '\r' !in EnvLine(key, value);
    ConcatNoReturn(r);
  }

  lemma {:induction false} UpperPrefix(a: string, b: string)
    ensures StartsWith(ToUpper(a + b), ToUpper(a))
  {
    ToUpperAppend(a, b);
    StartsWithSlice(ToUpper(a + b), ToUpper(a));
    assert (ToUpper(a) + ToUpper(b))[..|ToUpper(a)|] == ToUpper(a);
  }

  lemma {:induction false} TextAfterFirst(key: string, value: string)
    requires '=' !in key
    ensures TextAfter(key + "=" + value, '=') == value
  {
    if key != [] {
      assert (key + "=" + value)[1..] == key[1..] + "=" + value;
      TextAfterFirst(key[1..], value);
    } else {
      assert (key + "=" + value)[1..] == value;
    }
  }

  /** The new line strips to `key=value`, matches the key and yields the value. */
  lemma {:induction false} EnvLineFacts(key: string, value: string)
    requires SafeKey(key) && SafeValue(value)
    ensures Strip(EnvLine(key, value)) == key + "=" + value
    ensures Matches(EnvLine(key, value), key)
    ensures TextAfter(Strip(EnvLine(key, value)), '=') == value
    ensures IsLine(EnvLine(key, value)) && EndsWithNewline(EnvLine(key, value))
  {
    var body := key + "=" + value;
    var line := EnvLine(key, value);
    assert line == body + "\n";
    assert body[0] == (if key == [] then '=' else key[0]);
    assert body[|body| - 1] == (if value == [] then '=' else value[|value| - 1]);
    assert StripLeft(line) == line;
    assert line[..|line| - 1] == body;
    assert StripRight(line) == StripRight(body);
    assert StripRight(body) == body;
    UpperPrefix(key + "=", value);
    ToUpperAppend(key, "=");
    assert ToUpper("=") == "=";
    TextAfterFirst(key, value);
    assert '\n' !in body;
  }

  /** Adding a newline to a line changes nothing once the line is stripped. */
  lemma {:induction false} StripNewline(x: string)
    ensures Strip(x + "\n") == Strip(x)
  {
    hide StripLeft, LeadingSpaces;
    var t := x + "\n";
    if AllSpace(x) {
      AllSpaceStripLeft(x);
      AllSpaceStripLeft(t);
    } else {
      StripLeftAppend(x, "\n");
      var y := StripLeft(x);
      assert (y + "\n")[..|y|] == y;
    }
  }

  lemma {:induction false} AllSpaceStripLeft(x: string)
    requires AllSpace(x)
    ensures StripLeft(x) == []
  {
    if x != [] {
      AllSpaceStripLeft(x[1..]);
    }
  }

  lemma {:induction false} StripLeftAppend(x: string, t: string)
    requires !AllSpace(x)
    ensures StripLeft(x + t) == StripLeft(x) + t
  {
    assert (x + t)[0] == x[0];
    if IsSpace(x[0]) {
      assert (x + t)[1..] == x[1..] + t;
      StripLeftAppend(x[1..], t);
    }
  }

  /** A file without a trailing newline gets one on its last line. */
  function Terminated(lines: seq<string>): seq<string>
  {
    if NeedsSeparator(lines) then lines[..|lines| - 1] + [lines[|lines| - 1] + "\n"] else lines
  }

  lemma {:induction false} SingleMatch(line: string, key: string)
    ensures AnyMatch([line], key) <==> Matches(line, key)
  {
    assert [line][1..] == [];
  }

  /** Terminating the last line does not change whether the key occurs. */
  lemma {:induction false} TerminatedMatches(lines: seq<string>, key: string)
    ensures AnyMatch(Terminated(lines), key) <==> AnyMatch(lines, key)
  {
    if NeedsSeparator(lines) {
      var n := |lines| - 1;
      var last := lines[n];
      StripNewline(last);
      assert lines == lines[..n] + [last];
      AnyMatchConcat(lines[..n], [last], key);
      AnyMatchConcat(lines[..n], [last + "\n"], key);
      SingleMatch(last, key);
      SingleMatch(last + "\n", key);
    }
  }

  lemma {:induction false} WellFormedCons(line: string, rest: seq<string>)
    ensures WellFormed([line] + rest)
        <==> IsLine(line) && (rest != [] ==> EndsWithNewline(line)) && WellFormed(rest)
  {
    var all := [line] + rest;
    assert all[0] == line;
    assert forall i :: 0 <= i < |rest| ==> rest[i] == all[i + 1];
  }

  lemma {:induction false} TerminatedWellFormed(lines: seq<string>, key: string, value: string)
    requires WellFormed(lines) && SafeKey(key) && SafeValue(value)
    ensures WellFormed(Terminated(lines) + [EnvLine(key, value)])
  {
    EnvLineFacts(key, value);
    var t := Terminated(lines);
    var all := t + [EnvLine(key, value)];
    if NeedsSeparator(lines) {
      var n := |lines| - 1;
      var last := lines[n];
      assert (last + "\n")[..|last + "\n"| - 1] == last;
      assert forall i :: 0 <= i < n ==> all[i] == lines[i];
      assert all[n] == last + "\n";
    } else {
      assert forall i :: 0 <= i < |lines| ==> all[i] == lines[i];
    }
  }

  lemma {:induction false} TerminatedConcat(lines: seq<string>)
    ensures Concat(lines + (if NeedsSeparator(lines) then ["\n"] else [])) == Concat(Terminated(lines))
  {
    if NeedsSeparator(lines) {
      var n := |lines| - 1;
      var init, last := lines[..n], lines[n];
      assert lines == init + [last];
      ConcatAppend(init, [last]);
      ConcatSingle(last);
      ConcatAppend(lines, ["\n"]);
      ConcatSingle("\n");
      ConcatAppend(init, [last + "\n"]);
      ConcatSingle(last + "\n");
    } else {
      assert lines + [] == lines;
    }
  }

  lemma ConcatSingle(line: string)
    ensures Concat([line]) == line
  {
    assert [line][1..] == [];
  }

  lemma {:induction false} ReplacedWellFormed(lines: seq<string>, key: string, value: string)
    requires WellFormed(lines) && SafeKey(key) && SafeValue(value)
    ensures WellFormed(Replaced(lines, key, value))
  {
    if lines != [] {
      EnvLineFacts(key, value);
      WellFormedCons(lines[0], lines[1..]);
      assert lines == [lines[0]] + lines[1..];
      ReplacedWellFormed(lines[1..], key, value);
      var head := if Matches(lines[0], key) then EnvLine(key, value) else lines[0];
      WellFormedCons(head, Replaced(lines[1..], key, value));
    }
  }

  /** Lines that do not match are all kept. */
  lemma {:induction false} ReplacedNoMatch(lines: seq<string>, key: string, value: string)
    requires !AnyMatch(lines, key)
    ensures Replaced(lines, key, value) == lines
  {
    if lines != [] {
      ReplacedNoMatch(lines[1..], key, value);
      assert lines == [lines[0]] + lines[1..];
    }
  }

  /** Replacing again changes nothing: a replaced line matches and is replaced by itself. */
  lemma {:induction false} ReplacedTwice(lines: seq<string>, key: string, value: string)
    requires SafeKey(key) && SafeValue(value)
    ensures Replaced(Replaced(lines, key, value), key, value) == Replaced(lines, key, value)
  {
    if lines != [] {
      EnvLineFacts(key, value);
      var r := Replaced(lines, key, value);
      assert r[1..] == Replaced(lines[1..], key, value);
      ReplacedTwice(lines[1..], key, value);
    }
  }

  lemma {:induction false} LookUpReplaced(lines: seq<string>, key: string, value: string)
    requires SafeKey(key) && SafeValue(value) && AnyMatch(lines, key)
    ensures LookUp(Replaced(lines, key, value), key) == Some(value)
  {
    EnvLineFacts(key, value);
    var r := Replaced(lines, key, value);
    assert r[1..] == Replaced(lines[1..], key, value);
    if !Matches(lines[0], key) {
      LookUpReplaced(lines[1..], key, value);
    }
  }

  lemma {:induction false} LookUpAfterNoMatch(lines: seq<string>, tail: seq<string>, key: string)
    requires !AnyMatch(lines, key)
    ensures LookUp(lines + tail, key) == LookUp(tail, key)
  {
    if lines != [] {
      assert (lines + tail)[1..] == lines[1..] + tail;
      assert (lines + tail)[0] == lines[0];
      LookUpAfterNoMatch(lines[1..], tail, key);
    } else {
      assert lines + tail == tail;
    }
  }

  /** What reading the written file back gives. */
  function WrittenBack(lines: seq<string>, key: string, value: string): seq<string>
  {
    if AnyMatch(lines, key) then Replaced(lines, key, value) else Terminated(lines) + [EnvLine(key, value)]
  }

  lemma {:induction false} WrittenBackFacts(file: Option<string>, key: string, value: string)
    requires SafeKey(key) && SafeValue(value)
    ensures var lines := FileLines(file);
      && FileLines(Some(NewContent(file, key, value))) == WrittenBack(lines, key, value)
      && NewContent(file, key, value) == Concat(WrittenBack(lines, key, value))
  {
    hide Matches;
    var lines := FileLines(file);
    if file.Some? {
      ReadLinesWellFormed(Universal(file.value));
    }
    NewContentNoReturn(file, key, value);
    if AnyMatch(lines, key) {
      assert UpdatedLines(lines, key, value) == Replaced(lines, key, value);
      ReplacedWellFormed(lines, key, value);
      ReadConcat(Replaced(lines, key, value));
    } else {
      ReplacedNoMatch(lines, key, value);
      TerminatedConcat(lines);
      TerminatedWellFormed(lines, key, value);
      var sep: seq<string> := if NeedsSeparator(lines) then ["\n"] else [];
      assert UpdatedLines(lines, key, value) == (lines + sep) + [EnvLine(key, value)];
      ConcatAppend(lines + sep, [EnvLine(key, value)]);
      ConcatAppend(Terminated(lines), [EnvLine(key, value)]);
      ReadConcat(Terminated(lines) + [EnvLine(key, value)]);
    }
  }

  /** Round trip: after the update, looking the key up in the new file gives the value written. */
  lemma {:induction false} UpdateThenGet(file: Option<string>, key: string, value: string)
    requires SafeKey(key) && SafeValue(value)
    ensures GetEnvValue(Some(NewContent(file, key, value)), key) == Some(value)
  {
    var lines := FileLines(file);
    WrittenBackFacts(file, key, value);
    if AnyMatch(lines, key) {
      LookUpReplaced(lines, key, value);
    } else {
      EnvLineFacts(key, value);
      TerminatedMatches(lines, key);
      LookUpAfterNoMatch(Terminated(lines), [EnvLine(key, value)], key);
    }
  }

  /** Idempotence: updating the updated file with the same key and value writes the same text again. */
  lemma {:induction false} UpdateIdempotent(file: Option<string>, key: string, value: string)
    requires SafeKey(key) && SafeValue(value)
    ensures NewContent(Some(NewContent(file, key, value)), key, value) == NewContent(file, key, value)
  {
    hide Matches, ReadLines, Strip;
    var lines := FileLines(file);
    var c1 := NewContent(file, key, value);
    WrittenBackFacts(file, key, value);
    var back := WrittenBack(lines, key, value);
    assert FileLines(Some(c1)) == back;
    if AnyMatch(lines, key) {
      LookUpReplaced(lines, key, value);
      LookUpSomeIffAnyMatch(back, key);
      ReplacedTwice(lines, key, value);
      assert UpdatedLines(back, key, value) == back;
    } else {
      EnvLineFacts(key, value);
      var t := Terminated(lines);
      var kv := [EnvLine(key, value)];
      TerminatedMatches(lines, key);
      SingleMatch(EnvLine(key, value), key);
      AnyMatchConcat(t, kv, key);
      ReplacedNoMatch(t, key, value);
      ReplacedConcat(t, kv, key, value);
      assert Replaced(kv, key, value) == kv by {
        assert kv[1..] == [];
      }
      assert UpdatedLines(back, key, value) == back;
    }
  }

  /** An account as the set-up script sees it: `type` 1 marks a brokerage account. */
  datatype Account = Account(id: string, name: string, accountType: int)

  /** `[(i, acc) for i, acc in enumerate(accounts) if acc.type == 1]`, keeping the original index. */
  function BrokerAccounts(accounts: seq<Account>): (r: seq<(nat, Account)>)
    ensures forall k :: 0 <= k < |r| ==> r[k].0 < |accounts| && accounts[r[k].0] == r[k].1 && r[k].1.accountType == 1
    ensures |r| <= |accounts|
    ensures forall i :: 0 <= i < |accounts| && accounts[i].accountType == 1 ==> (i, accounts[i]) in r
    ensures forall k, l :: 0 <= k < l < |r| ==> r[k].0 < r[l].0
  {
    if accounts == [] then []
    else
      var before := BrokerAccounts(accounts[..|accounts| - 1]);
      var last := accounts[|accounts| - 1];
      if last.accountType == 1 then before + [(|accounts| - 1, last)] else before
  }

  datatype Choice = Selected(account: Account) | InvalidNumber | NotAnInteger

  /**
   * The account prompt: `int(input()) - 1` must name one of the listed brokerage accounts;
   * a number out of range exits, and text that is not an integer raises.
   */
  function ChooseAccount(broker: seq<(nat, Account)>, typed: string): (r: Choice)
    ensures r.NotAnInteger? <==> Numbers.ParseInt(typed).None?
    ensures r.Selected? <==>
      Numbers.ParseInt(typed).Some? && 1 <= Numbers.ParseInt(typed).value <= |broker|
    ensures r.Selected? ==> r.account == broker[Numbers.ParseInt(typed).value - 1].1
  {
    match Numbers.ParseInt(typed)
    case None => NotAnInteger
    case Some(n) =>
      var choice := n - 1;
      if choice < 0 || choice >= |broker| then InvalidNumber else Selected(broker[choice].1)
  }
}
