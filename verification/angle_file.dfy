/**
  The angle file of the pan/tilt helpers: one `name=angle` line per servo.
  Reading builds a `dict` from the lines that hold an `=`, each stripped and
  split at `=`; a line that splits into more than two pieces makes `dict`
  raise `ValueError`. Writing reads the file when it exists, sets one entry
  to the angle's text and writes every entry back, one line each.
  The file is an object whose contents are its text, `None` while it does not exist.
*/
module AngleFile {
  import opened Wrappers
  import opened Strings

  /** A file on disk: its text, or `None` when there is no such file. */
  class TextFile {
    var contents: Option<string>

    constructor(contents: Option<string>)
      ensures this.contents == contents
    {
      this.contents := contents;
    }
  }

  /** A Python `dict` from strings to strings, as its items in insertion order. */
  type Dict = seq<(string, string)>

  function Keys(d: Dict): set<string> {
    set i | 0 <= i < |d| :: d[i].0
  }

  predicate DistinctKeys(d: Dict) {
    forall i, j :: 0 <= i < j < |d| ==> d[i].0 != d[j].0
  }

  /** `d.get(k)`. */
  function Get(d: Dict, k: string): Option<string>
    decreases |d|
  {
    if d == [] then None else if d[0].0 == k then Some(d[0].1) else Get(d[1..], k)
  }

  /** `d.get(k)` finds a value exactly when some item has the key, and the value it finds is that item's. */
  lemma {:induction false} GetFindsKey(d: Dict, k: string)
    ensures Get(d, k).Some? <==> exists i :: 0 <= i < |d| && d[i].0 == k
    ensures Get(d, k).Some? ==> (k, Get(d, k).value) in d
    decreases |d|
  {
    if d != [] && d[0].0 != k {
      GetFindsKey(d[1..], k);
      if Get(d, k).Some? {
        var i :| 0 <= i < |d[1..]| && d[1..][i].0 == k;
        assert d[i + 1].0 == k;
      }
      forall i | 0 <= i < |d| && d[i].0 == k ensures Get(d, k).Some? {
        assert i > 0 && d[1..][i - 1].0 == k;
      }
    }
  }

  /** `d[k] = v`: a key already present keeps its place and takes the new value; a new key goes last. */
  function Put(d: Dict, k: string, v: string): Dict
    decreases |d|
  {
    if d == [] then [(k, v)]
    else if d[0].0 == k then [(k, v)] + d[1..]
    else [d[0]] + Put(d[1..], k, v)
  }

  /** After `d[k] = v`, `k` maps to `v` and every other key to what it mapped to before. */
  lemma {:induction false} PutGet(d: Dict, k: string, v: string, j: string)
    ensures Get(Put(d, k, v), j) == if j == k then Some(v) else Get(d, j)
    decreases |d|
  {
    if d != [] {
      if d[0].0 == k {
        assert ([(k, v)] + d[1..])[1..] == d[1..];
      } else {
        PutGet(d[1..], k, v, j);
        assert ([d[0]] + Put(d[1..], k, v))[1..] == Put(d[1..], k, v);
      }
    }
  }

  /** A key that is not in the dict is added at the end. */
  lemma {:induction false} PutNew(d: Dict, k: string, v: string)
    requires k !in Keys(d)
    ensures Put(d, k, v) == d + [(k, v)]
    decreases |d|
  {
    if d != [] {
      assert d[0].0 in Keys(d);
      assert Keys(d[1..]) <= Keys(d) by {
        forall x | x in Keys(d[1..]) ensures x in Keys(d) {
          var i :| 0 <= i < |d[1..]| && d[1..][i].0 == x;
          assert d[i + 1].0 == x;
        }
      }
      PutNew(d[1..], k, v);
      assert [d[0]] + (d[1..] + [(k, v)]) == d + [(k, v)];
    }
  }

  /** Every item of `d` after `d[k] = v` is the new item or an item of `d`. */
  lemma {:induction false} PutEntries(d: Dict, k: string, v: string)
    ensures forall i :: 0 <= i < |Put(d, k, v)| ==> Put(d, k, v)[i] == (k, v) || Put(d, k, v)[i] in d
    decreases |d|
  {
    if d != [] && d[0].0 != k {
      PutEntries(d[1..], k, v);
      var r := Put(d, k, v);
      forall i | 0 <= i < |r| ensures r[i] == (k, v) || r[i] in d {
        if i > 0 {
          assert r[i] == Put(d[1..], k, v)[i - 1];
        }
      }
    }
  }

  /** `d[k] = v` keeps the keys distinct. */
  lemma {:induction false} PutKeepsDistinct(d: Dict, k: string, v: string)
    requires DistinctKeys(d)
    ensures DistinctKeys(Put(d, k, v))
    decreases |d|
  {
    if d != [] && d[0].0 != k {
      var rest := Put(d[1..], k, v);
      PutKeepsDistinct(d[1..], k, v);
      PutEntries(d[1..], k, v);
      var r := Put(d, k, v);
      assert r == [d[0]] + rest;
      forall i, j | 0 <= i < j < |r| ensures r[i].0 != r[j].0 {
        if i == 0 {
          assert r[j] == rest[j - 1];
          if rest[j - 1] != (k, v) {
            var m :| 0 <= m < |d[1..]| && d[1..][m] == rest[j - 1];
            assert d[m + 1] == rest[j - 1];
          }
        } else {
          assert r[i] == rest[i - 1] && r[j] == rest[j - 1];
        }
      }
    }
  }

  /** The index of the first line break in `s`, or `|s|` when it has none. */
  function NewlineAt(s: string): (i: nat)
    ensures i <= |s|
    ensures i < |s| ==> s[i] == '\n'
    decreases |s|
  {
    if s == [] || s[0] == '\n' then 0 else 1 + NewlineAt(s[1..])
  }

  /** No line break comes before the one `NewlineAt` finds. */
  lemma {:induction false} NoNewlineBefore(s: string)
    ensures forall j :: 0 <= j < NewlineAt(s) ==> s[j] != '\n'
    decreases |s|
  {
    if s != [] && s[0] != '\n' {
      NoNewlineBefore(s[1..]);
      forall j | 0 <= j < NewlineAt(s) ensures s[j] != '\n' {
        if j > 0 {
          assert s[j] == s[1..][j - 1];
        }
      }
    }
  }

  /** Iterating over a text file: its lines, each ending in its `\n` except possibly the last. */
  function Lines(text: string): seq<string>
    decreases |text|
  {
    if text == [] then []
    else
      var i := NewlineAt(text);
      if i == |text| then [text] else [text[..i + 1]] + Lines(text[i + 1..])
  }

  /** A line holds a line break at most at its end. */
  predicate SingleLine(line: string) {
    forall j :: 0 <= j < |line| - 1 ==> line[j] != '\n'
  }

  function Concat(lines: seq<string>): string
    decreases |lines|
  {
    if lines == [] then [] else lines[0] + Concat(lines[1..])
  }

  /**
    The lines cut the text without losing or adding a character; none is
    empty, each holds a line break only at its end, and all but the last end with one.
  */
  lemma {:induction false} LinesCutText(text: string)
    ensures Concat(Lines(text)) == text
    ensures forall k :: 0 <= k < |Lines(text)| ==> Lines(text)[k] != [] && SingleLine(Lines(text)[k])
    ensures forall k :: 0 <= k < |Lines(text)| - 1 ==> Lines(text)[k][|Lines(text)[k]| - 1] == '\n'
    ensures forall k, c :: 0 <= k < |Lines(text)| && c in Lines(text)[k] ==> c in text
    decreases |text|
  {
    if text != [] {
      var i := NewlineAt(text);
      NoNewlineBefore(text);
      if i < |text| {
        var rest := text[i + 1..];
        LinesCutText(rest);
        var ls := Lines(text);
        assert ls == [text[..i + 1]] + Lines(rest);
        assert ls[1..] == Lines(rest);
        assert text[..i + 1] + rest == text;
        forall k, c | 0 <= k < |ls| && c in ls[k] ensures c in text {
          if k > 0 {
            assert ls[k] == Lines(rest)[k - 1];
            assert c in rest;
          }
        }
      }
    }
  }

  /** Appending one complete line to a text that ends at a line break appends that line to its lines. */
  lemma {:induction false} LinesAppend(t: string, line: string)
    requires t == [] || t[|t| - 1] == '\n'
    requires line != [] && line[|line| - 1] == '\n' && SingleLine(line)
    ensures Lines(t + line) == Lines(t) + [line]
    decreases |t|
  {
    if t == [] {
      LinesOfOneLine(line);
      assert t + line == line;
    } else {
      var i := NewlineAt(t);
      NewlineOfAppend(t, line);
      var rest := t[i + 1..];
      assert rest == [] || rest[|rest| - 1] == '\n';
      LinesAppend(rest, line);
    }
  }

  /** A single complete line is read as itself. */
  lemma LinesOfOneLine(line: string)
    requires line != [] && line[|line| - 1] == '\n' && SingleLine(line)
    ensures Lines(line) == [line]
  {
    NewlineAtFirst(line, |line| - 1);
    assert line[..|line|] == line && line[|line|..] == [];
  }

  /** The first line of `t + line` is the first line of `t`, when `t` ends at a line break. */
  lemma NewlineOfAppend(t: string, line: string)
    requires t != [] && t[|t| - 1] == '\n'
    ensures NewlineAt(t) < |t|
    ensures NewlineAt(t + line) == NewlineAt(t)
    ensures Lines(t) == [t[..NewlineAt(t) + 1]] + Lines(t[NewlineAt(t) + 1..])
    ensures Lines(t + line) == [t[..NewlineAt(t) + 1]] + Lines(t[NewlineAt(t) + 1..] + line)
  {
    var i := NewlineAt(t);
    NoNewlineBefore(t);
    var s := t + line;
    assert forall j :: 0 <= j < i ==> s[j] == t[j];
    NewlineAtFirst(s, i);
    assert t == t[..i + 1] + t[i + 1..];
    assert s == t[..i + 1] + (t[i + 1..] + line);
    assert s[..i + 1] == t[..i + 1];
    assert s[i + 1..] == t[i + 1..] + line;
  }

  /** The first line break of `s` is at `i` when `s[i]` is one and none comes before it. */
  lemma {:induction false} NewlineAtFirst(s: string, i: nat)
    requires i < |s| && s[i] == '\n'
    requires forall j :: 0 <= j < i ==> s[j] != '\n'
    ensures NewlineAt(s) == i
    decreases i
  {
    if i > 0 {
      assert s[0] != '\n';
      NewlineAtFirst(s[1..], i - 1);
    }
  }

  /**
    One line of the generator fed to `dict`: skipped when it holds no `=`,
    else stripped and split at `=`, and the two pieces stored as key and value.
  */
  function AddLine(prior: Result<Dict>, line: string): Result<Dict> {
    if prior.Failure? || '=' !in line then prior
    else
      var parts := Split(Strip(line), '=');
      if |parts| != 2 then Failure(ValueError("dictionary update sequence element has the wrong length"))
      else Success(Put(prior.value, parts[0], parts[1]))
  }

  /** The dict that `dict(line.strip().split("=") for line in lines if "=" in line)` builds. */
  function ParseLines(lines: seq<string>): Result<Dict>
    decreases |lines|
  {
    if lines == [] then Success([]) else AddLine(ParseLines(lines[..|lines| - 1]), lines[|lines| - 1])
  }

  /** Reading one more line. */
  lemma ParseOneMore(lines: seq<string>, line: string)
    ensures ParseLines(lines + [line]) == AddLine(ParseLines(lines), line)
  {
    assert (lines + [line])[..|lines|] == lines;
  }

  /** Reading the text of an angle file into a dict. */
  function Parse(text: string): Result<Dict> {
    ParseLines(Lines(text))
  }

  /** Once a line is malformed, the read fails with that error whatever follows. */
  lemma {:induction false} FailureSticks(lines: seq<string>, n: nat)
    requires n <= |lines|
    requires ParseLines(lines[..n]).Failure?
    ensures ParseLines(lines) == ParseLines(lines[..n])
    decreases |lines|
  {
    if n < |lines| {
      assert lines[..|lines| - 1][..n] == lines[..n];
      FailureSticks(lines[..|lines| - 1], n);
    } else {
      assert lines[..n] == lines;
    }
  }

  /** A line without `=` is skipped wherever it stands. */
  lemma {:induction false} LineWithoutEqualsIgnored(before: seq<string>, line: string, after: seq<string>)
    requires '=' !in line
    ensures ParseLines(before + [line] + after) == ParseLines(before + after)
    decreases |after|
  {
    if after == [] {
      ParseAfter(before, [], line);
      assert before + [line] + after == before + ([] + [line]);
      assert before + after == before + [];
    } else {
      var init := after[..|after| - 1];
      var last := after[|after| - 1];
      assert after == init + [last];
      LineWithoutEqualsIgnored(before, line, init);
      ParseAfter(before + [line], init, last);
      ParseAfter(before, init, last);
    }
  }

  /** Reading `prefix + rest + [last]`: the read of `prefix + rest`, then one more line. */
  lemma ParseAfter(prefix: seq<string>, rest: seq<string>, last: string)
    ensures ParseLines(prefix + (rest + [last])) == AddLine(ParseLines(prefix + rest), last)
  {
    assert prefix + (rest + [last]) == (prefix + rest) + [last];
    ParseOneMore(prefix + rest, last);
  }

  /**
    A later line for a key wins: after a line that splits into `k` and `v`,
    `k` maps to `v` and every other key keeps its value.
  */
  lemma LaterLineWins(lines: seq<string>, line: string, k: string, v: string, j: string)
    requires ParseLines(lines).Success?
    requires '=' in line && Split(Strip(line), '=') == [k, v]
    ensures ParseLines(lines + [line]).Success?
    ensures Get(ParseLines(lines + [line]).value, j) == if j == k then Some(v) else Get(ParseLines(lines).value, j)
  {
    assert (lines + [line])[..|lines|] == lines;
    PutGet(ParseLines(lines).value, k, v, j);
  }

  /** A key and value that come back unchanged from a write and a read: no `=`, no line break, no white space at the outer ends. */
  predicate CleanEntry(k: string, v: string) {
    && '=' !in k && '=' !in v
    && '\n' !in k && '\n' !in v && '\r' !in k && '\r' !in v
    && (k == [] || !IsSpace(k[0]))
    && (v == [] || !IsSpace(v[|v| - 1]))
  }

  predicate CleanDict(d: Dict) {
    forall i :: 0 <= i < |d| ==> CleanEntry(d[i].0, d[i].1)
  }

  /** `f"{key}={value}\n"`. */
  function EntryLine(k: string, v: string): string {
    k + "=" + v + "\n"
  }

  /** What writing every item of the dict produces, one line each, in order. */
  function Serialise(d: Dict): (text: string)
    ensures text == [] || text[|text| - 1] == '\n'
    decreases |d|
  {
    if d == [] then [] else Serialise(d[..|d| - 1]) + EntryLine(d[|d| - 1].0, d[|d| - 1].1)
  }

  function EntryLines(d: Dict): (lines: seq<string>)
    ensures |lines| == |d|
    decreases |d|
  {
    if d == [] then [] else EntryLines(d[..|d| - 1]) + [EntryLine(d[|d| - 1].0, d[|d| - 1].1)]
  }

  /** The written text reads back as one line per item. */
  lemma {:induction false} SerialisedLines(d: Dict)
    requires CleanDict(d)
    ensures Lines(Serialise(d)) == EntryLines(d)
    decreases |d|
  {
    if d != [] {
      var n := |d| - 1;
      assert CleanDict(d[..n]);
      SerialisedLines(d[..n]);
      var line := EntryLine(d[n].0, d[n].1);
      assert CleanEntry(d[n].0, d[n].1);
      assert SingleLine(line) by {
        forall j | 0 <= j < |line| - 1 ensures line[j] != '\n' {
          if j < |d[n].0| {
            assert line[j] == d[n].0[j];
          } else if j > |d[n].0| {
            assert line[j] == d[n].1[j - |d[n].0| - 1];
          }
        }
      }
      LinesAppend(Serialise(d[..n]), line);
    }
  }

  /** Stripping a written line gives back `key=value`. */
  lemma StripEntryLine(k: string, v: string)
    requires CleanEntry(k, v)
    ensures Strip(EntryLine(k, v)) == k + "=" + v
  {
    var s := k + "=" + v;
    var line := EntryLine(k, v);
    assert line == s + "\n";
    assert s[0] == (if k == [] then '=' else k[0]);
    assert s[|s| - 1] == (if v == [] then '=' else v[|v| - 1]);
    assert LStrip(line) == line;
    assert line[..|line| - 1] == s;
    assert RStrip(s) == s;
  }

  /** Splitting `key=value` at `=` gives back the key and the value. */
  lemma SplitEntry(k: string, v: string)
    requires '=' !in k && '=' !in v
    ensures Split(k + "=" + v, '=') == [k, v]
  {
    SplitJoin([k, v], '=');
    assert Join([k, v], '=') == k + ['='] + Join([v], '=');
  }

  /** Reading back the lines of a dict with distinct, clean items gives that dict. */
  lemma {:induction false} ParseEntryLines(d: Dict)
    requires DistinctKeys(d) && CleanDict(d)
    ensures ParseLines(EntryLines(d)) == Success(d)
    decreases |d|
  {
    if d != [] {
      var n := |d| - 1;
      var init, last := d[..n], d[n];
      PrefixKeepsShape(d, n);
      ParseEntryLines(init);
      assert EntryLines(d) == EntryLines(init) + [EntryLine(last.0, last.1)];
      ParseOneMore(EntryLines(init), EntryLine(last.0, last.1));
      ReadEntryLine(init, last.0, last.1);
      PutLastKey(d);
    }
  }

  /** A prefix of a dict with distinct, clean items has distinct, clean items. */
  lemma PrefixKeepsShape(d: Dict, n: nat)
    requires n <= |d| && DistinctKeys(d) && CleanDict(d)
    ensures DistinctKeys(d[..n]) && CleanDict(d[..n])
    ensures n < |d| ==> CleanEntry(d[n].0, d[n].1)
  {
  }

  /** Storing the last item of a dict with distinct keys into the rest rebuilds the dict. */
  lemma PutLastKey(d: Dict)
    requires d != [] && DistinctKeys(d)
    ensures Put(d[..|d| - 1], d[|d| - 1].0, d[|d| - 1].1) == d
  {
    var n := |d| - 1;
    assert d[n].0 !in Keys(d[..n]);
    PutNew(d[..n], d[n].0, d[n].1);
    assert d[..n] + [d[n]] == d;
  }


  /** Reading a written line stores its key and value. */
  lemma ReadEntryLine(d: Dict, k: string, v: string)
    requires CleanEntry(k, v)
    ensures AddLine(Success(d), EntryLine(k, v)) == Success(Put(d, k, v))
  {
    assert EntryLine(k, v)[|k|] == '=';
    StripEntryLine(k, v);
    SplitEntry(k, v);
  }


  /** Serialising a dict and parsing the text gives back the dict, order included. */
  lemma ParseSerialise(d: Dict)
    requires DistinctKeys(d) && CleanDict(d)
    ensures Parse(Serialise(d)) == Success(d)
  {
    SerialisedLines(d);
    ParseEntryLines(d);
  }

  /** The item one well-formed line contributes is clean. */
  lemma ParsedItemIsClean(line: string)
    requires SingleLine(line) && '\r' !in line
    requires |Split(Strip(line), '=')| == 2
    ensures CleanEntry(Split(Strip(line), '=')[0], Split(Strip(line), '=')[1])
  {
    var s := Strip(line);
    StrippedLineIsBare(line);
    SplitInTwo(s);
    PiecesAreClean(Split(s, '=')[0], Split(s, '=')[1]);
  }

  /** A stripped single line holds no line break, and no character the line did not hold. */
  lemma StrippedLineIsBare(line: string)
    requires SingleLine(line)
    ensures '\n' !in Strip(line)
    ensures '\r' !in line ==> '\r' !in Strip(line)
  {
    var s := Strip(line);
    var a := |line| - |LStrip(line)|;
    forall j | 0 <= j < |s| ensures s[j] == line[a + j] && s[j] != '\n' {
      assert s[j] == line[a + j];
      if j < |s| - 1 {
        assert a + j < |line| - 1;
      } else {
        assert !IsSpace(s[j]);
      }
    }
  }

  /** A string that splits at `=` into two pieces is those pieces joined by `=`. */
  lemma SplitInTwo(s: string)
    requires |Split(s, '=')| == 2
    ensures s == Split(s, '=')[0] + "=" + Split(s, '=')[1]
  {
    var parts := Split(s, '=');
    JoinSplit(s, '=');
    assert Join(parts, '=') == parts[0] + ['='] + Join(parts[1..], '=');
    assert parts[1..] == [parts[1]];
  }

  /** The two pieces of a bare `key=value` text make a clean item. */
  lemma PiecesAreClean(k: string, v: string)
    requires '=' !in k && '=' !in v
    requires '\n' !in k + "=" + v && '\r' !in k + "=" + v
    requires NoSurroundingSpace(k + "=" + v)
    ensures CleanEntry(k, v)
  {
    var s := k + "=" + v;
    assert forall c :: c in k ==> c in s;
    assert forall c :: c in v ==> c in s;
    assert k != [] ==> k[0] == s[0];
    assert v != [] ==> v[|v| - 1] == s[|s| - 1];
  }

  /** Whatever a file of single lines without `\r` parses to has distinct, clean items. */
  lemma {:induction false} ParsedDictIsClean(lines: seq<string>)
    requires forall k :: 0 <= k < |lines| ==> SingleLine(lines[k]) && '\r' !in lines[k]
    requires ParseLines(lines).Success?
    ensures DistinctKeys(ParseLines(lines).value) && CleanDict(ParseLines(lines).value)
    decreases |lines|
  {
    if lines != [] {
      var init := lines[..|lines| - 1];
      var line := lines[|lines| - 1];
      ParsedDictIsClean(init);
      if '=' in line {
        var d := ParseLines(init).value;
        var parts := Split(Strip(line), '=');
        ParsedItemIsClean(line);
        PutKeepsDistinct(d, parts[0], parts[1]);
        PutEntries(d, parts[0], parts[1]);
      }
    }
  }

  /** The dict a write starts from: the file's, or an empty one when there is no file. */
  function Prior(file: Option<string>): (r: Result<Dict>)
    ensures file.None? ==> r == Success([])
  {
    if file.None? then Success([]) else Parse(file.value)
  }

  /**
    `write_last_angle`'s effect on the file's text: set `name` to `value` and
    write every item back. It raises (and writes nothing) exactly when an
    existing file does not parse.
  */
  function WriteAngle(file: Option<string>, name: string, value: string): (r: Result<string>)
    ensures r.Failure? <==> Prior(file).Failure?
  {
    match Prior(file)
    case Failure(e) => Failure(e)
    case Success(d) => Success(Serialise(Put(d, name, value)))
  }

  /** The file after the write: the new text, or the old contents when the write raised. */
  function AfterWrite(file: Option<string>, name: string, value: string): Option<string> {
    if WriteAngle(file, name, value).Success? then Some(WriteAngle(file, name, value).value) else file
  }

  /**
    `read_last_angle`: `default` is the evaluation of the servo's configured
    default angle (a `KeyError` for an unknown servo), and `parse` is `float()`
    on the stored text.
  */
  function ReadAngle(file: Option<string>, name: string, default: Result<real>, parse: string -> Option<real>): (r: Result<real>)
    ensures file.None? ==> r == default
    ensures file.Some? && Parse(file.value).Failure? ==> r.Failure?
    ensures file.Some? && Parse(file.value).Success? && Get(Parse(file.value).value, name).None? ==> r == default
  {
    match file
    case None => default
    case Some(text) =>
      match Parse(text)
      case Failure(e) => Failure(e)
      case Success(angles) =>
        if default.Failure? then default
        else
          match Get(angles, name)
          case None => default
          case Some(v) =>
            if parse(v).Some? then Success(parse(v).value)
            else Failure(ValueError("could not convert string to float: " + v))
  }

  /**
    After a successful write the file parses to the old items with `name` set
    to `value`: `name` reads back as `value` and every other entry as before.
  */
  lemma WriteThenParse(file: Option<string>, name: string, value: string, j: string)
    requires file.Some? ==> '\r' !in file.value
    requires CleanEntry(name, value)
    requires WriteAngle(file, name, value).Success?
    ensures Parse(WriteAngle(file, name, value).value) == Success(Put(Prior(file).value, name, value))
    ensures Get(Parse(WriteAngle(file, name, value).value).value, j)
      == if j == name then Some(value) else Get(Prior(file).value, j)
  {
    var d := Prior(file).value;
    if file.Some? {
      LinesCutText(file.value);
      ParsedDictIsClean(Lines(file.value));
    }
    PutKeepsDistinct(d, name, value);
    PutEntries(d, name, value);
    ParseSerialise(Put(d, name, value));
    PutGet(d, name, value, j);
  }

  /** An angle written with a text that `parse` reads back is the angle read next. */
  lemma WriteThenRead(file: Option<string>, name: string, value: string, a: real,
                      default: Result<real>, parse: string -> Option<real>)
    requires file.Some? ==> '\r' !in file.value
    requires CleanEntry(name, value) && parse(value) == Some(a)
    requires default.Success?
    requires WriteAngle(file, name, value).Success?
    ensures ReadAngle(Some(WriteAngle(file, name, value).value), name, default, parse) == Success(a)
  {
    WriteThenParse(file, name, value, name);
  }

  /** `dict(line.strip().split("=") for line in f if "=" in line)`, one line at a time. */
  method LoadAngles(text: string) returns (r: Result<Dict>)
    ensures r == Parse(text)
  {
    var lines := Lines(text);
    var angles: Dict := [];
    var i := 0;
    while i < |lines|
      invariant 0 <= i <= |lines|
      invariant ParseLines(lines[..i]) == Success(angles)
    {
      var line := lines[i];
      assert lines[..i + 1] == lines[..i] + [line];
      ParseOneMore(lines[..i], line);
      if '=' in line {
        var parts := Split(Strip(line), '=');
        if |parts| != 2 {
          r := Failure(ValueError("dictionary update sequence element has the wrong length"));
          FailureSticks(lines, i + 1);
          return;
        }
        angles := Put(angles, parts[0], parts[1]);
      }
      i := i + 1;
    }
    assert lines[..i] == lines;
    r := Success(angles);
  }

  /** `for key, value in angles.items(): f.write(f"{key}={value}\n")`. */
  method StoreAngles(d: Dict) returns (text: string)
    ensures text == Serialise(d)
  {
    text := [];
    var i := 0;
    while i < |d|
      invariant 0 <= i <= |d|
      invariant text == Serialise(d[..i])
    {
      assert d[..i + 1][..i] == d[..i];
      text := text + EntryLine(d[i].0, d[i].1);
      i := i + 1;
    }
    assert d[..i] == d;
  }

  /** `read_last_angle` on the file object. */
  method ReadAngleFile(file: TextFile, name: string, default: Result<real>, parse: string -> Option<real>)
    returns (r: Result<real>)
    ensures r == ReadAngle(file.contents, name, default, parse)
  {
    if file.contents.None? {
      return default;
    }
    var angles := LoadAngles(file.contents.value);
    if angles.Failure? {
      return Failure(angles.error);
    }
    if default.Failure? {
      return default;
    }
    var found := Get(angles.value, name);
    if found.None? {
      return default;
    }
    var a := parse(found.value);
    if a.None? {
      return Failure(ValueError("could not convert string to float: " + found.value));
    }
    return Success(a.value);
  }

  /** `write_last_angle` on the file object: `value` is the text of the angle. */
  method WriteAngleFile(file: TextFile, name: string, value: string) returns (r: Result<()>)
    modifies file
    ensures r.Success? <==> WriteAngle(old(file.contents), name, value).Success?
    ensures file.contents == AfterWrite(old(file.contents), name, value)
  {
    var angles: Dict := [];
    if file.contents.Some? {
      var loaded := LoadAngles(file.contents.value);
      if loaded.Failure? {
        return Failure(loaded.error);
      }
      angles := loaded.value;
    }
    angles := Put(angles, name, value);
    var text := StoreAngles(angles);
    file.contents := Some(text);
    return Success(());
  }
}
