// The environment-variable editor of the MCP form
// (src/components/chat/panels/mcp/env-var-input.tsx): the rows shown for a
// record, the record rebuilt from edited rows, and the bulk paste parser.
//
// A `Record<string, string>` is an association list in insertion order with
// distinct keys: assigning an existing key replaces its value in place, a
// new key goes at the end.

module EnvVars {
  import opened Strings

  datatype EnvVar = EnvVar(key: string, value: string)

  const EmptyRow: EnvVar := EnvVar("", "")

  /** `displayEnvVars`: the entries and one empty row to type into. */
  function DisplayEnvVars(entries: seq<EnvVar>): (r: seq<EnvVar>)
    ensures r == entries + [EmptyRow]
  {
    if |entries| == 0 then [EmptyRow] else entries + [EmptyRow]
  }

  /** `result[key] = value` */
  function Assign(rec: seq<EnvVar>, key: string, value: string): (r: seq<EnvVar>)
    ensures |r| == |rec| || r == rec + [EnvVar(key, value)]
  {
    if rec == [] then [EnvVar(key, value)]
    else if rec[0].key == key then [EnvVar(key, value)] + rec[1..]
    else [rec[0]] + Assign(rec[1..], key, value)
  }

  /** `rec[key]`, `None` for a missing key. */
  function Lookup(rec: seq<EnvVar>, key: string): Option<string>
  {
    if rec == [] then None
    else if rec[0].key == key then Some(rec[0].value)
    else Lookup(rec[1..], key)
  }

  predicate IsKey(rec: seq<EnvVar>, key: string) {
    exists i :: 0 <= i < |rec| && rec[i].key == key
  }

  /** A record as the editor keeps it: distinct keys, each trimmed and not empty. */
  predicate WellFormed(rec: seq<EnvVar>) {
    && (forall i :: 0 <= i < |rec| ==> rec[i].key != [] && Trim(rec[i].key) == rec[i].key)
    && (forall i, j :: 0 <= i < j < |rec| ==> rec[i].key != rec[j].key)
  }

  lemma {:induction false} AssignLookup(rec: seq<EnvVar>, key: string, value: string, k: string)
    ensures Lookup(Assign(rec, key, value), k) == if k == key then Some(value) else Lookup(rec, k)
  {
    if rec != [] && rec[0].key != key {
      AssignLookup(rec[1..], key, value, k);
    }
  }

  /** A key of a record with one entry in front is that entry's key or a key of the rest. */
  lemma IsKeyCons(x: EnvVar, tail: seq<EnvVar>, k: string)
    ensures IsKey([x] + tail, k) <==> x.key == k || IsKey(tail, k)
  {
    var r := [x] + tail;
    if IsKey(tail, k) {
      var i :| 0 <= i < |tail| && tail[i].key == k;
      assert r[i + 1].key == k;
    }
    if IsKey(r, k) && x.key != k {
      var i :| 0 <= i < |r| && r[i].key == k;
      assert tail[i - 1].key == k;
    }
    assert r[0] == x;
  }

  /** The parts of a well-formed record with one entry in front. */
  lemma WellFormedCons(x: EnvVar, tail: seq<EnvVar>)
    ensures WellFormed([x] + tail) <==>
      x.key != [] && Trim(x.key) == x.key && !IsKey(tail, x.key) && WellFormed(tail)
  {
    var r := [x] + tail;
    assert forall i :: 0 <= i < |tail| ==> tail[i] == r[i + 1];
    if x.key != [] && Trim(x.key) == x.key && !IsKey(tail, x.key) && WellFormed(tail) {
      forall i, j | 0 <= i < j < |r| ensures r[i].key != r[j].key {
        if i == 0 {
          assert tail[j - 1].key == r[j].key;
        }
      }
    }
    if WellFormed(r) {
      assert r[0] == x;
      forall i | 0 <= i < |tail| ensures tail[i].key != x.key {
        assert r[i + 1].key != r[0].key;
      }
    }
  }

  /** The parts of a well-formed record with one entry at the end. */
  lemma WellFormedSnoc(init: seq<EnvVar>, last: EnvVar)
    requires WellFormed(init + [last])
    ensures WellFormed(init) && last.key != [] && Trim(last.key) == last.key && !IsKey(init, last.key)
  {
    var r := init + [last];
    assert forall i :: 0 <= i < |init| ==> init[i] == r[i];
    assert r[|init|] == last;
  }

  /** A new key goes at the end. */
  lemma {:induction false} AssignNew(rec: seq<EnvVar>, key: string, value: string)
    requires !IsKey(rec, key)
    ensures Assign(rec, key, value) == rec + [EnvVar(key, value)]
  {
    if rec != [] {
      assert rec == [rec[0]] + rec[1..];
      IsKeyCons(rec[0], rec[1..], key);
      AssignNew(rec[1..], key, value);
    }
  }

  /** Assigning adds its key to the record's keys and takes none away. */
  lemma {:induction false} AssignKeys(rec: seq<EnvVar>, key: string, value: string, k: string)
    ensures IsKey(Assign(rec, key, value), k) <==> IsKey(rec, k) || k == key
  {
    if rec == [] {
      IsKeyCons(EnvVar(key, value), [], k);
    } else {
      assert rec == [rec[0]] + rec[1..];
      IsKeyCons(rec[0], rec[1..], k);
      if rec[0].key == key {
        IsKeyCons(EnvVar(key, value), rec[1..], k);
      } else {
        AssignKeys(rec[1..], key, value, k);
        IsKeyCons(rec[0], Assign(rec[1..], key, value), k);
      }
    }
  }

  /** Assigning keeps the record well formed, for a trimmed non-empty key. */
  lemma {:induction false} AssignWellFormed(rec: seq<EnvVar>, key: string, value: string)
    requires WellFormed(rec) && key != [] && Trim(key) == key
    ensures WellFormed(Assign(rec, key, value))
  {
    if rec == [] {
      WellFormedCons(EnvVar(key, value), []);
    } else {
      assert rec == [rec[0]] + rec[1..];
      WellFormedCons(rec[0], rec[1..]);
      if rec[0].key == key {
        WellFormedCons(EnvVar(key, value), rec[1..]);
      } else {
        AssignWellFormed(rec[1..], key, value);
        AssignKeys(rec[1..], key, value, rec[0].key);
        WellFormedCons(rec[0], Assign(rec[1..], key, value));
      }
    }
  }

  /** The record `convertToRecord` builds: rows with a blank key are dropped, keys are trimmed, later rows win. */
  function Converted(rows: seq<EnvVar>): (r: seq<EnvVar>)
  {
    if rows == [] then []
    else
      var last := rows[|rows| - 1];
      var rest := Converted(rows[..|rows| - 1]);
      if Trim(last.key) != [] then Assign(rest, Trim(last.key), last.value) else rest
  }

  /** The value of the last row whose trimmed key is `k`. */
  function LastValue(rows: seq<EnvVar>, k: string): Option<string>
  {
    if rows == [] then None
    else
      var last := rows[|rows| - 1];
      if Trim(last.key) != [] && Trim(last.key) == k then Some(last.value) else LastValue(rows[..|rows| - 1], k)
  }

  /** The rebuilt record maps each trimmed, non-blank key to the value of its last row, and holds nothing else. */
  lemma {:induction false} ConvertedLookup(rows: seq<EnvVar>, k: string)
    ensures Lookup(Converted(rows), k) == LastValue(rows, k)
  {
    if rows != [] {
      var last := rows[|rows| - 1];
      ConvertedLookup(rows[..|rows| - 1], k);
      if Trim(last.key) != [] {
        AssignLookup(Converted(rows[..|rows| - 1]), Trim(last.key), last.value, k);
      }
    }
  }

  /** The rebuilt record is well formed. */
  lemma {:induction false} ConvertedWellFormed(rows: seq<EnvVar>)
    ensures WellFormed(Converted(rows))
  {
    if rows != [] {
      var last := rows[|rows| - 1];
      ConvertedWellFormed(rows[..|rows| - 1]);
      if Trim(last.key) != [] {
        TrimIdempotent(last.key);
        AssignWellFormed(Converted(rows[..|rows| - 1]), Trim(last.key), last.value);
      }
    }
  }

  /** Rebuilding a well-formed record gives it back unchanged. */
  lemma {:induction false} ConvertedOfWellFormed(rec: seq<EnvVar>)
    requires WellFormed(rec)
    ensures Converted(rec) == rec
  {
    if rec != [] {
      var init, last := rec[..|rec| - 1], rec[|rec| - 1];
      assert rec == init + [last];
      WellFormedSnoc(init, last);
      ConvertedOfWellFormed(init);
      AssignNew(init, last.key, last.value);
      assert Converted(rec) == Assign(init, last.key, last.value);
    }
  }


  /** `convertToRecord`: the `forEach` that assigns each non-blank trimmed key. */
  method ConvertToRecord(envArray: seq<EnvVar>) returns (result: seq<EnvVar>)
    ensures result == Converted(envArray)
  {
    result := [];
    var i := 0;
    while i < |envArray|
      invariant 0 <= i <= |envArray|
      invariant result == Converted(envArray[..i])
    {
      var key := envArray[i].key;
      var value := envArray[i].value;
      if Trim(key) != [] {
        result := Assign(result, Trim(key), value);
      }
      assert envArray[..i + 1][..i] == envArray[..i];
      i := i + 1;
    }
    assert envArray[..i] == envArray;
  }

  /** `addEnvVar`: an empty row is added and dropped again, so a well-formed record is reported unchanged. */
  function AddEnvVar(entries: seq<EnvVar>): seq<EnvVar>
  {
    Converted(entries + [EmptyRow])
  }

  lemma AddEnvVarKeepsRecord(entries: seq<EnvVar>)
    requires WellFormed(entries)
    ensures AddEnvVar(entries) == entries
  {
    assert (entries + [EmptyRow])[..|entries|] == entries;
    ConvertedOfWellFormed(entries);
  }

  /** `envVarArray.filter((_, i) => i !== index)` */
  function WithoutIndex(entries: seq<EnvVar>, index: int): (r: seq<EnvVar>)
    ensures 0 <= index < |entries| ==> |r| == |entries| - 1
    ensures !(0 <= index < |entries|) ==> r == entries
  {
    if 0 <= index < |entries| then entries[..index] + entries[index + 1..] else entries
  }

  /** `removeEnvVar` */
  function RemoveEnvVar(entries: seq<EnvVar>, index: int): seq<EnvVar>
  {
    Converted(WithoutIndex(entries, index))
  }

  /** Removing from a well-formed record drops the row at the index and keeps every other row in order. */
  lemma RemoveEnvVarDropsOnlyThatRow(entries: seq<EnvVar>, index: int)
    requires WellFormed(entries)
    ensures RemoveEnvVar(entries, index) == WithoutIndex(entries, index)
  {
    var r := WithoutIndex(entries, index);
    if 0 <= index < |entries| {
      assert forall i :: 0 <= i < |r| ==> r[i] == entries[if i < index then i else i + 1];
    }
    ConvertedOfWellFormed(r);
  }

  datatype Field = Key | Value

  /**
   * `updateEnvVar`: the shown row at `index` gets the new key or value; the
   * trailing row is kept only if that is the row edited and it now has a
   * non-blank key or value; the rows are then rebuilt into a record.
   */
  function UpdateEnvVar(entries: seq<EnvVar>, index: nat, field: Field, text: string): seq<EnvVar>
    requires index < |DisplayEnvVars(entries)|
  {
    var shown := DisplayEnvVars(entries);
    var row := if field == Key then shown[index].(key := text) else shown[index].(value := text);
    var edited := shown[index := row];
    var toUpdate := edited[..|edited| - 1];
    var kept := if index == |edited| - 1 && (Trim(row.key) != [] || Trim(row.value) != []) then toUpdate + [row] else toUpdate;
    Converted(kept)
  }

  /** Editing the value of an existing row of a well-formed record changes that value only. */
  lemma UpdateValueInPlace(entries: seq<EnvVar>, index: nat, text: string)
    requires WellFormed(entries) && index < |entries|
    ensures UpdateEnvVar(entries, index, Value, text) == entries[index := entries[index].(value := text)]
  {
    var r := entries[index := entries[index].(value := text)];
    var shown := DisplayEnvVars(entries);
    assert shown[index := shown[index].(value := text)][..|shown| - 1] == r;
    ConvertedOfWellFormed(r);
  }

  /** Typing a new trimmed key into the trailing row adds it to the record with an empty value. */
  lemma UpdateTrailingKeyAdds(entries: seq<EnvVar>, key: string)
    requires WellFormed(entries) && key != [] && Trim(key) == key && !IsKey(entries, key)
    ensures UpdateEnvVar(entries, |entries|, Key, key) == entries + [EnvVar(key, "")]
  {
    var shown := DisplayEnvVars(entries);
    var edited := shown[|entries| := EnvVar(key, "")];
    assert edited[..|edited| - 1] == entries;
    assert edited[..|edited| - 1] + [EnvVar(key, "")] == entries + [EnvVar(key, "")];
    assert WellFormed(entries + [EnvVar(key, "")]) by {
      var r := entries + [EnvVar(key, "")];
      forall i, j | 0 <= i < j < |r| ensures r[i].key != r[j].key {
        if j == |entries| {
          assert r[i] == entries[i];
        }
      }
    }
    ConvertedOfWellFormed(entries + [EnvVar(key, "")]);
  }

  /** A line matched by `^([^=]+)=(.*)$`: the key before the first `=`, and the value after it. */
  function KeyValueMatch(line: string): Option<EnvVar>
  {
    match IndexOf(line, "=", 0)
    case None => None
    case Some(i) =>
      if i > 0 && NoLineTerminator(line[i + 1..]) then Some(EnvVar(Trim(line[..i]), Trim(line[i + 1..]))) else None
  }

  predicate IsLineTerminator(c: char) {
    c == '\n' || c == '\r' || c == '\U{2028}' || c == '\U{2029}'
  }

  predicate NoLineTerminator(s: string) {
    forall i :: 0 <= i < |s| ==> !IsLineTerminator(s[i])
  }

  /** The longest prefix without `c`. */
  function UpTo(s: string, c: char): (r: string)
    ensures r <= s && !HasChar(r, c) && (|r| < |s| ==> s[|r|] == c)
  {
    if s == [] || s[0] == c then []
    else
      var rest := UpTo(s[1..], c);
      assert forall k :: 0 <= k < |rest| ==> ([s[0]] + rest)[k + 1] == rest[k];
      [s[0]] + rest
  }

  /** The longest prefix of white space (`\s*`). */
  function SpacePrefix(s: string): (r: nat)
    ensures r <= |s| && forall k :: 0 <= k < r ==> IsSpace(s[k])
    ensures r < |s| ==> !IsSpace(s[r])
  {
    if s == [] || !IsSpace(s[0]) then 0 else 1 + SpacePrefix(s[1..])
  }

  /** `"KEY"\s*:\s*`: the quoted key and what follows the colon and its spaces. */
  function QuotedKey(line: string): Option<(string, string)>
  {
    if line == [] || line[0] != '"' then None
    else
      var key := UpTo(line[1..], '"');
      var after := line[1 + |key|..];
      if key == [] || after == [] then None
      else
        var gap := after[1..];
        var n := SpacePrefix(gap);
        if n < |gap| && gap[n] == ':' then
          var tail := gap[n + 1..];
          Some((key, tail[SpacePrefix(tail)..]))
        else None
  }

  /** `"KEY": "VALUE"` with an optional trailing comma. */
  function QuotedValueMatch(line: string): Option<EnvVar>
  {
    match QuotedKey(line)
    case None => None
    case Some((key, rest)) =>
      if rest == [] || rest[0] != '"' then None
      else
        var value := UpTo(rest[1..], '"');
        var end := rest[1 + |value|..];
        if end == "\"" || end == "\"," then Some(EnvVar(Trim(key), Trim(value))) else None
  }

  predicate IsTokenChar(c: char) {
    c != ',' && !IsSpace(c)
  }

  /** The longest prefix of characters that are neither `,` nor white space. */
  function TokenPrefix(s: string): (r: nat)
    ensures r <= |s| && forall k :: 0 <= k < r ==> IsTokenChar(s[k])
  {
    if s == [] || !IsTokenChar(s[0]) then 0 else 1 + TokenPrefix(s[1..])
  }

  /** `"KEY": token` with an optional trailing comma, the token holding no comma or white space. */
  function BareValueMatch(line: string): Option<EnvVar>
  {
    match QuotedKey(line)
    case None => None
    case Some((key, rest)) =>
      var n := TokenPrefix(rest);
      if n > 0 && (rest[n..] == [] || rest[n..] == ",") then Some(EnvVar(Trim(key), Trim(rest[..n]))) else None
  }

  /**
   * One line of pasted text: nothing for a blank line or a comment, else the
   * first of the three forms that matches, else nothing.
   */
  function ParseLine(line: string): (r: Option<EnvVar>)
  {
    var t := Trim(line);
    if t == [] || StartsWith(t, "#") then None
    else if KeyValueMatch(t).Some? then KeyValueMatch(t)
    else if QuotedValueMatch(t).Some? then QuotedValueMatch(t)
    else BareValueMatch(t)
  }

  /** The pairs of the lines, in order. */
  function ParseLines(lines: seq<string>): (r: seq<EnvVar>)
    ensures |r| <= |lines|
  {
    if lines == [] then []
    else
      var last := ParseLine(lines[|lines| - 1]);
      ParseLines(lines[..|lines| - 1]) + (if last.Some? then [last.value] else [])
  }

  /**
   * `parseEnvVars`. The text is cut at `\n`; the `\r` that `/\r?\n/` would
   * also remove is white space, which the trim of every line removes anyway.
   */
  method ParseEnvVars(text: string) returns (result: seq<EnvVar>)
    ensures result == ParseLines(Split(text, "\n"))
  {
    var lines := Split(text, "\n");
    result := [];
    var i := 0;
    while i < |lines|
      invariant 0 <= i <= |lines|
      invariant result == ParseLines(lines[..i])
    {
      var parsed := ParseLine(lines[i]);
      ParseLinesStep(lines, i, parsed);
      if parsed.Some? {
        result := result + [parsed.value];
      }
      i := i + 1;
    }
    assert lines[..i] == lines;
  }

  /** One more line adds its pair, if it has one. */
  lemma ParseLinesStep(lines: seq<string>, i: nat, parsed: Option<EnvVar>)
    requires i < |lines| && parsed == ParseLine(lines[i])
    ensures ParseLines(lines[..i + 1]) == ParseLines(lines[..i]) + (if parsed.Some? then [parsed.value] else [])
  {
    assert lines[..i + 1][..i] == lines[..i];
  }

  /** Every parsed key and value is trimmed. */
  lemma ParsedPairsAreTrimmed(line: string)
    requires ParseLine(line).Some?
    ensures var p := ParseLine(line).value; Trim(p.key) == p.key && Trim(p.value) == p.value
  {
    var t := Trim(line);
    if KeyValueMatch(t).Some? {
      var i := IndexOf(t, "=", 0).value;
      TrimIdempotent(t[..i]);
      TrimIdempotent(t[i + 1..]);
    } else if QuotedValueMatch(t).Some? {
      var (key, rest) := QuotedKey(t).value;
      TrimIdempotent(key);
      TrimIdempotent(UpTo(rest[1..], '"'));
    } else {
      var (key, rest) := QuotedKey(t).value;
      TrimIdempotent(key);
      TrimIdempotent(rest[..TokenPrefix(rest)]);
    }
  }

  /** A line `KEY=VALUE` reads back as that pair, for a trimmed key without `=` and a trimmed value. */
  lemma KeyValueRoundTrip(key: string, value: string)
    requires key != [] && Trim(key) == key && !HasChar(key, '=') && !StartsWith(key, "#")
    requires Trim(value) == value && NoLineTerminator(value)
    ensures ParseLine(key + "=" + value) == Some(EnvVar(key, value))
  {
    var line := key + "=" + value;
    TrimIdempotent(key);
    assert line[0] == key[0];
    if value != [] {
      TrimIdempotent(value);
      assert line[|line| - 1] == value[|value| - 1];
    }
    TrimOfTrimmed(line);
    assert line[..1] == key[..1];
    assert OccursAt(line, "=", |key|) by { assert line[|key|..|key| + 1] == "="; }
    forall j | 0 <= j < |key| ensures !OccursAt(line, "=", j) {
      assert line[j..j + 1] == [key[j]];
    }
    IndexOfFirst(line, "=", |key|);
    assert line[..|key|] == key && line[|key| + 1..] == value;
  }

  /** A line without `=` never matches the `KEY=VALUE` form. */
  lemma NoEqualsNoKeyValue(line: string)
    requires !HasChar(line, '=')
    ensures KeyValueMatch(line) == None
  {
    IndexOfSound(line, "=", 0);
    if IndexOf(line, "=", 0).Some? {
      var i := IndexOf(line, "=", 0).value;
      assert line[i..i + 1] == "=";
    }
  }

  /** `UpTo` stops exactly at the first `c` after a prefix free of it. */
  lemma {:induction false} UpToFirst(s: string, c: char, rest: string)
    requires !HasChar(s, c)
    ensures UpTo(s + [c] + rest, c) == s
  {
    if s != [] {
      assert !HasChar(s[1..], c) by {
        forall k | 0 <= k < |s[1..]| ensures s[1..][k] != c {
          assert s[1..][k] == s[k + 1];
        }
      }
      UpToFirst(s[1..], c, rest);
      assert (s + [c] + rest)[1..] == s[1..] + [c] + rest;
    }
  }

  /** `"KEY": ` reads back as the key and what follows the single space after the colon. */
  lemma QuotedKeyOf(key: string, rest: string)
    requires !HasChar(key, '"')
    requires rest == [] || !IsSpace(rest[0])
    ensures QuotedKey("\"" + key + "\": " + rest)
         == if key == [] then None else Some((key, rest))
  {
    var line := "\"" + key + "\": " + rest;
    var after := "\": " + rest;
    QuotedKeyParts(key, rest, line, after);
    ColonGap(rest, after);
  }

  /** `"KEY": ` followed by `rest` opens with a quote, then the key up to the closing quote. */
  lemma QuotedKeyParts(key: string, rest: string, line: string, after: string)
    requires !HasChar(key, '"')
    requires line == "\"" + key + "\": " + rest && after == "\": " + rest
    ensures line != [] && line[0] == '"' && UpTo(line[1..], '"') == key && line[1 + |key|..] == after
  {
    assert line[1..] == key + ['"'] + (": " + rest);
    UpToFirst(key, '"', ": " + rest);
  }

  /** After the closing quote come the colon, no space before it and one space after it. */
  lemma ColonGap(rest: string, after: string)
    requires rest == [] || !IsSpace(rest[0])
    requires after == "\": " + rest
    ensures after != [] && SpacePrefix(after[1..]) == 0 && after[1..][0] == ':'
    ensures after[1..][1..] == " " + rest && SpacePrefix(" " + rest) == 1 && (" " + rest)[1..] == rest
  {
    var gap := after[1..];
    assert gap == ": " + rest;
    assert SpacePrefix(gap) == 0;
    var tail := gap[1..];
    assert tail == " " + rest && tail[1..] == rest;
    assert SpacePrefix(tail) == 1;
  }

  /** A line opening with a quote and holding no `=` is read by the two JSON-style forms, in order. */
  lemma ParseLineQuoted(line: string)
    requires line != [] && line[0] == '"' && !IsSpace(line[|line| - 1])
    requires !HasChar(line, '=')
    ensures ParseLine(line) == if QuotedValueMatch(line).Some? then QuotedValueMatch(line) else BareValueMatch(line)
  {
    TrimOfTrimmed(line);
    assert !StartsWith(line, "#") by { assert line[..1] == "\""; }
    NoEqualsNoKeyValue(line);
  }

  /** The quoted value after `"KEY": ` is read up to its closing quote, before an optional comma. */
  lemma QuotedValueOf(key: string, value: string, comma: string)
    requires comma == "" || comma == ","
    requires key != [] && !HasChar(key, '"') && !HasChar(value, '"')
    ensures QuotedValueMatch("\"" + key + "\": " + ("\"" + value + "\"" + comma)) == Some(EnvVar(Trim(key), Trim(value)))
  {
    var rest := "\"" + value + "\"" + comma;
    QuotedKeyOf(key, rest);
    AfterOpeningQuote(value, comma);
    UpToFirst(value, '"', comma);
    assert UpTo(rest[1..], '"') == value;
    assert ['"'] + comma == "\"" || ['"'] + comma == "\",";
  }

  /** The parts of `"VALUE"` followed by a comma, as the quoted-value match cuts them. */
  lemma AfterOpeningQuote(value: string, comma: string)
    ensures ("\"" + value + "\"" + comma)[1..] == value + ['"'] + comma
    ensures ("\"" + value + "\"" + comma)[1 + |value|..] == ['"'] + comma
  {
  }

  /** A line `"KEY": "VALUE"`, with or without a trailing comma, reads back as that pair, trimmed. */
  lemma QuotedValueRoundTrip(key: string, value: string, comma: string)
    requires comma == "" || comma == ","
    requires key != [] && !HasChar(key, '"') && !HasChar(key, '=')
    requires !HasChar(value, '"') && !HasChar(value, '=')
    ensures ParseLine("\"" + key + "\": " + ("\"" + value + "\"" + comma)) == Some(EnvVar(Trim(key), Trim(value)))
  {
    var line := "\"" + key + "\": " + ("\"" + value + "\"" + comma);
    QuotedLineShape(key, value, comma);
    QuotedValueOf(key, value, comma);
    ParseLineQuoted(line);
  }

  /** A quoted-value line opens with a quote, ends with a quote or comma and holds no `=` when its parts hold none. */
  lemma QuotedLineShape(key: string, value: string, comma: string)
    requires comma == "" || comma == ","
    requires !HasChar(key, '=') && !HasChar(value, '=')
    ensures var line := "\"" + key + "\": " + ("\"" + value + "\"" + comma);
      line[0] == '"' && !IsSpace(line[|line| - 1]) && !HasChar(line, '=')
  {
    var line := "\"" + key + "\": " + ("\"" + value + "\"" + comma);
    forall k | 0 <= k < |line| ensures line[k] != '=' {
      if 1 <= k < 1 + |key| {
        assert line[k] == key[k - 1];
      } else if 1 + |key| + 4 <= k < 1 + |key| + 4 + |value| {
        assert line[k] == value[k - 1 - |key| - 4];
      }
    }
  }

  /** The token prefix of a token stops at its end, before an optional comma. */
  lemma {:induction false} TokenPrefixOf(token: string, comma: string)
    requires comma == "" || comma == ","
    requires forall k :: 0 <= k < |token| ==> IsTokenChar(token[k])
    ensures TokenPrefix(token + comma) == |token|
  {
    if token != [] {
      assert (token + comma)[1..] == token[1..] + comma;
      TokenPrefixOf(token[1..], comma);
    }
  }

  /** A token after `"KEY": ` is read as the value, before an optional comma. */
  lemma BareValueOf(key: string, token: string, comma: string)
    requires comma == "" || comma == ","
    requires key != [] && !HasChar(key, '"')
    requires token != [] && token[0] != '"'
    requires forall k :: 0 <= k < |token| ==> IsTokenChar(token[k])
    ensures QuotedValueMatch("\"" + key + "\": " + (token + comma)) == None
    ensures BareValueMatch("\"" + key + "\": " + (token + comma)) == Some(EnvVar(Trim(key), token))
  {
    var rest := token + comma;
    QuotedKeyOf(key, rest);
    assert rest[0] == token[0];
    TokenPrefixOf(token, comma);
    assert rest[..|token|] == token && rest[|token|..] == comma;
    TrimOfTrimmed(token);
  }

  /** A line `"KEY": token`, with or without a trailing comma, reads back as that pair. */
  lemma BareValueRoundTrip(key: string, token: string, comma: string)
    requires comma == "" || comma == ","
    requires key != [] && !HasChar(key, '"') && !HasChar(key, '=')
    requires token != [] && token[0] != '"' && !HasChar(token, '=')
    requires forall k :: 0 <= k < |token| ==> IsTokenChar(token[k])
    ensures ParseLine("\"" + key + "\": " + (token + comma)) == Some(EnvVar(Trim(key), token))
  {
    var line := "\"" + key + "\": " + (token + comma);
    assert line[|line| - 1] == if comma == "" then token[|token| - 1] else ',';
    assert !HasChar(line, '=') by {
      forall k | 0 <= k < |line| ensures line[k] != '=' {
        if 1 <= k < 1 + |key| {
          assert line[k] == key[k - 1];
        } else if 1 + |key| + 3 <= k < 1 + |key| + 3 + |token| {
          assert line[k] == token[k - 1 - |key| - 3];
        }
      }
    }
    BareValueOf(key, token, comma);
    ParseLineQuoted(line);
  }

  /** Blank lines and comments give no pair. */
  lemma SkippedLines(line: string)
    requires Trim(line) == [] || StartsWith(Trim(line), "#")
    ensures ParseLine(line) == None
  {
  }

  /** Pasting several lines gives the pairs of each line, in order. */
  lemma {:induction false} ParseLinesAppend(a: seq<string>, b: seq<string>)
    ensures ParseLines(a + b) == ParseLines(a) + ParseLines(b)
    decreases |b|
  {
    if b != [] {
      var init := b[..|b| - 1];
      assert (a + b)[..|a + b| - 1] == a + init;
      assert (a + b)[|a + b| - 1] == b[|b| - 1];
      ParseLinesAppend(a, init);
      var x := ParseLine(b[|b| - 1]);
      var extra := if x.Some? then [x.value] else [];
      assert ParseLines(b) == ParseLines(init) + extra;
      assert ParseLines(a + b) == ParseLines(a + init) + extra;
      assert ParseLines(a) + ParseLines(init) + extra == ParseLines(a) + (ParseLines(init) + extra);
    } else {
      assert a + b == a;
    }
  }

  /**
   * `handlePaste`: only a paste into the key field of an empty row, of
   * non-blank text that parses into more than one pair, is taken over; the
   * pairs replace that row and the rows are rebuilt. `None` leaves the
   * browser's normal paste.
   */
  function HandlePaste(entries: seq<EnvVar>, index: nat, isKeyField: bool, pastedText: string): (r: Option<seq<EnvVar>>)
    requires index < |DisplayEnvVars(entries)|
    ensures r.Some? <==> DisplayEnvVars(entries)[index] == EmptyRow && isKeyField && Trim(pastedText) != []
                         && |ParseLines(Split(pastedText, "\n"))| > 1
    ensures r.Some? ==> WellFormed(r.value)
  {
    var shown := DisplayEnvVars(entries);
    var current := shown[index];
    var isEmptyRow := current.key == [] && current.value == [];
    if !isEmptyRow || !isKeyField then None
    else if Trim(pastedText) == [] then None
    else
      var parsed := ParseLines(Split(pastedText, "\n"));
      if |parsed| > 1 then
        ConvertedWellFormed(shown[..index] + parsed + shown[index + 1..]);
        Some(Converted(shown[..index] + parsed + shown[index + 1..]))
      else None
  }

  /** A taken-over paste into the trailing row adds the pasted pairs after the record's rows. */
  lemma PasteIntoTrailingRow(entries: seq<EnvVar>, pastedText: string)
    requires WellFormed(entries)
    requires HandlePaste(entries, |entries|, true, pastedText).Some?
    ensures HandlePaste(entries, |entries|, true, pastedText).value
         == Converted(entries + ParseLines(Split(pastedText, "\n")))
  {
    var shown := DisplayEnvVars(entries);
    assert shown[..|entries|] == entries;
    assert shown[|entries| + 1..] == [];
    assert entries + ParseLines(Split(pastedText, "\n")) + [] == entries + ParseLines(Split(pastedText, "\n"));
  }
}
