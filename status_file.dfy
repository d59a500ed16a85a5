/**
 * The status file of Backend/Capstone/sender.py: `key=value` lines read into
 * a field map, and the fixed status fields looked up in it with defaults.
 * Building and serialising the protobuf message is not part of this model.
 */
module StatusFile {
  import opened Common
  import opened Text

  /** Neither starts nor ends with whitespace: what `str.strip()` returns. */
  predicate Trimmed(s: string)
  {
    s == [] || (!IsSpace(s[0]) && !IsSpace(s[|s| - 1]))
  }

  /** The position of the first '='. */
  function FirstEquals(s: string): (i: nat)
    requires '=' in s
    ensures i < |s| && s[i] == '=' && '=' !in s[..i]
  {
    if s[0] == '=' then 0
    else
      var i := FirstEquals(s[1..]);
      assert s[..i + 1] == [s[0]] + s[1..][..i];
      i + 1
  }

  /** `line.split("=", 1)` on a line holding '=': the text before the first '=' and the rest after it. */
  function SplitFirst(s: string): (kv: (string, string))
    requires '=' in s
    ensures s == kv.0 + "=" + kv.1 && '=' !in kv.0
  {
    var i := FirstEquals(s);
    assert s == s[..i] + "=" + s[i + 1..];
    (s[..i], s[i + 1..])
  }

  /**
   * The entry one stripped line stores: none when it is empty or has no
   * '='; otherwise the stripped text before the first '=' as the key and the
   * stripped rest as the value.
   */
  function Stored(l: string): Option<(string, string)>
  {
    if l == [] || '=' !in l then None
    else
      var kv := SplitFirst(l);
      Some((Strip(kv.0), Strip(kv.1)))
  }

  /** The entry one line of the file stores, once the line is stripped. */
  function Entry(line: string): Option<(string, string)>
  {
    Stored(Strip(line))
  }

  /** The map after storing the entries `read` finds in the lines, in order, over m. */
  function Fill(m: map<string, string>, lines: seq<string>, read: string -> Option<(string, string)>): map<string, string>
  {
    if lines == [] then m
    else
      var before := Fill(m, lines[..|lines| - 1], read);
      match read(lines[|lines| - 1])
      case Some((k, v)) => before[k := v]
      case None => before
  }

  /** The field map `build_client_status_from_file` builds from the file's lines. */
  function FieldsOf(lines: seq<string>): map<string, string>
  {
    Fill(map[], lines, Entry)
  }

  /** The loop of `build_client_status_from_file` over the file's lines. */
  method ParseFields(lines: seq<string>) returns (fields: map<string, string>)
    ensures fields == FieldsOf(lines)
  {
    fields := map[];
    for i := 0 to |lines|
      invariant fields == Fill(map[], lines[..i], Entry)
    {
      var line := Strip(lines[i]);
      if line == [] || '=' !in line {
        FillSkip(map[], lines, i, Entry);
        continue;
      }
      var kv := SplitFirst(line);
      FillStore(map[], lines, i, Entry, Strip(kv.0), Strip(kv.1));
      fields := fields[Strip(kv.0) := Strip(kv.1)];
    }
    assert lines[..|lines|] == lines;
  }

  lemma FillSkip(m: map<string, string>, lines: seq<string>, i: nat, read: string -> Option<(string, string)>)
    requires i < |lines| && read(lines[i]).None?
    ensures Fill(m, lines[..i + 1], read) == Fill(m, lines[..i], read)
  {
    assert lines[..i + 1][..i] == lines[..i];
  }

  lemma FillStore(m: map<string, string>, lines: seq<string>, i: nat, read: string -> Option<(string, string)>,
                  k: string, v: string)
    requires i < |lines| && read(lines[i]) == Some((k, v))
    ensures Fill(m, lines[..i + 1], read) == Fill(m, lines[..i], read)[k := v]
  {
    assert lines[..i + 1][..i] == lines[..i];
  }

  lemma {:induction false} FillAppend(m: map<string, string>, a: seq<string>, b: seq<string>,
                                      read: string -> Option<(string, string)>)
    ensures Fill(m, a + b, read) == Fill(Fill(m, a, read), b, read)
    decreases |b|
  {
    if b == [] {
      assert a + b == a;
    } else {
      var b' := b[..|b| - 1];
      FillAppend(m, a, b', read);
      assert (a + b)[..|a + b| - 1] == a + b';
      assert (a + b)[|a + b| - 1] == b[|b| - 1];
    }
  }

  lemma {:induction false} FillLastWins(m: map<string, string>, lines: seq<string>,
                                        read: string -> Option<(string, string)>, i: nat, k: string, v: string)
    requires i < |lines| && read(lines[i]) == Some((k, v))
    requires forall j :: i < j < |lines| ==> read(lines[j]).None? || read(lines[j]).value.0 != k
    ensures k in Fill(m, lines, read) && Fill(m, lines, read)[k] == v
    decreases |lines|
  {
    if i < |lines| - 1 {
      var init := lines[..|lines| - 1];
      forall j | i < j < |init|
        ensures read(init[j]).None? || read(init[j]).value.0 != k
      {
        assert init[j] == lines[j];
      }
      assert init[i] == lines[i];
      FillLastWins(m, init, read, i, k, v);
    }
  }

  lemma {:induction false} FillKeys(m: map<string, string>, lines: seq<string>,
                                    read: string -> Option<(string, string)>, k: string)
    requires k in Fill(m, lines, read) && k !in m
    ensures exists i :: 0 <= i < |lines| && read(lines[i]).Some? && read(lines[i]).value.0 == k
    decreases |lines|
  {
    var init := lines[..|lines| - 1];
    var e := read(lines[|lines| - 1]);
    if !(e.Some? && e.value.0 == k) {
      FillKeys(m, init, read, k);
      var i :| 0 <= i < |init| && read(init[i]).Some? && read(init[i]).value.0 == k;
      assert lines[i] == init[i];
    }
  }

  /**
   * The last line that stores key k decides its value: a later line either
   * stores nothing or another key.
   */
  lemma LastOccurrenceWins(lines: seq<string>, i: nat, k: string, v: string)
    requires i < |lines| && Entry(lines[i]) == Some((k, v))
    requires forall j :: i < j < |lines| ==> Entry(lines[j]).None? || Entry(lines[j]).value.0 != k
    ensures k in FieldsOf(lines) && FieldsOf(lines)[k] == v
  {
    FillLastWins(map[], lines, Entry, i, k, v);
  }

  /** Every key in the map was stored by some line of the file. */
  lemma KeysFromLines(lines: seq<string>, k: string)
    requires k in FieldsOf(lines)
    ensures exists i :: 0 <= i < |lines| && Entry(lines[i]).Some? && Entry(lines[i]).value.0 == k
  {
    FillKeys(map[], lines, Entry, k);
  }

  /** A line that is blank or has no '=' changes nothing, wherever it stands. */
  lemma IgnoredLine(before: seq<string>, line: string, after: seq<string>)
    requires Strip(line) == [] || '=' !in Strip(line)
    ensures FieldsOf(before + [line] + after) == FieldsOf(before + after)
  {
    assert Entry(line) == None;
    FillAppend(map[], before + [line], after, Entry);
    FillAppend(map[], before, [line], Entry);
    FillAppend(map[], before, after, Entry);
    assert [line][..0] == [];
  }

  lemma StoredSplit(k: string, v: string)
    requires '=' !in k && Trimmed(k) && Trimmed(v)
    ensures Stored(k + "=" + v) == Some((k, v))
  {
    var line := k + "=" + v;
    assert line[|k|] == '=';
    var kv := SplitFirst(line);
    assert |kv.0| == |k|;
    assert kv.0 == line[..|k|] == k;
    assert kv.1 == line[|k| + 1..] == v;
    StripUnpadded(k);
    StripUnpadded(v);
  }

  /** Only the first '=' splits: key=value with '=' inside the value is stored as written. */
  lemma ValueMayHoldEquals(k: string, v: string)
    requires '=' !in k && Trimmed(k) && Trimmed(v)
    ensures Entry(k + "=" + v) == Some((k, v))
  {
    var line := k + "=" + v;
    assert line[0] == (if k == [] then '=' else k[0]);
    assert line[|line| - 1] == (if v == [] then '=' else v[|v| - 1]);
    StripUnpadded(line);
    StoredSplit(k, v);
  }

  lemma StripTwice(s: string)
    ensures Trimmed(Strip(s)) && Strip(Strip(s)) == Strip(s)
  {
    StripUnpadded(Strip(s));
  }

  lemma StoredStripped(l: string)
    requires Stored(l).Some?
    ensures Trimmed(Stored(l).value.0) && Trimmed(Stored(l).value.1)
    ensures Strip(Stored(l).value.0) == Stored(l).value.0 && Strip(Stored(l).value.1) == Stored(l).value.1
  {
    var kv := SplitFirst(l);
    StripTwice(kv.0);
    StripTwice(kv.1);
  }

  /** Stored keys and values carry no surrounding whitespace. */
  lemma EntryStripped(line: string)
    requires Entry(line).Some?
    ensures Trimmed(Entry(line).value.0) && Trimmed(Entry(line).value.1)
    ensures Strip(Entry(line).value.0) == Entry(line).value.0 && Strip(Entry(line).value.1) == Entry(line).value.1
  {
    StoredStripped(Strip(line));
  }

  // ------------------------- the status fields -------------------------

  /**
   * A numeric field: the text stored under its key, which `float` or `int`
   * converts, or the default 0 when the key is missing.
   */
  datatype Reading = Given(text: string) | Zero

  datatype Status = Status(
    xEci: Reading, yEci: Reading, zEci: Reading,
    vxEci: Reading, vyEci: Reading, vzEci: Reading,
    heading: Reading, cableRemaining: Reading, batteryRemaining: Reading,
    errorCode: Reading,
    cableDispenseStatus: string, cableDispenseCommand: string,
    sequenceNum: Reading)

  /** The keys the message reads; every other key is ignored. */
  const KnownKeys: set<string> := {
    "X_ECI", "Y_ECI", "Z_ECI", "Vx_ECI", "Vy_ECI", "Vz_ECI",
    "Heading", "cableRemaining_m", "percentBatteryRemaining",
    "errorCode", "cableDispenseStatus", "cableDispenseCommand", "SequenceNum"
  }

  /** `fields.get(key, 0)` before the numeric conversion. */
  function Number(fields: map<string, string>, key: string): Reading
  {
    if key in fields then Given(fields[key]) else Zero
  }

  /** `fields.get(key, "")`. */
  function Words(fields: map<string, string>, key: string): string
  {
    if key in fields then fields[key] else ""
  }

  /** The status message's fields, each looked up under its own key with its default. */
  function BuildStatus(fields: map<string, string>): Status
  {
    Status(
      Number(fields, "X_ECI"), Number(fields, "Y_ECI"), Number(fields, "Z_ECI"),
      Number(fields, "Vx_ECI"), Number(fields, "Vy_ECI"), Number(fields, "Vz_ECI"),
      Number(fields, "Heading"), Number(fields, "cableRemaining_m"), Number(fields, "percentBatteryRemaining"),
      Number(fields, "errorCode"),
      Words(fields, "cableDispenseStatus"), Words(fields, "cableDispenseCommand"),
      Number(fields, "SequenceNum"))
  }

  /** The status depends only on the known keys. */
  /** Two field maps hold the same known keys with the same texts. */
  ghost predicate AgreeOnKnown(f: map<string, string>, g: map<string, string>)
  {
    forall k :: k in KnownKeys ==> (k in f <==> k in g) && (k in f ==> f[k] == g[k])
  }

  lemma OnlyKnownKeys(f: map<string, string>, g: map<string, string>)
    requires AgreeOnKnown(f, g)
    ensures BuildStatus(f) == BuildStatus(g)
  {
    assert "X_ECI" in KnownKeys && "Y_ECI" in KnownKeys && "Z_ECI" in KnownKeys;
    assert "Vx_ECI" in KnownKeys && "Vy_ECI" in KnownKeys && "Vz_ECI" in KnownKeys;
    assert "Heading" in KnownKeys && "cableRemaining_m" in KnownKeys && "percentBatteryRemaining" in KnownKeys;
    assert "errorCode" in KnownKeys && "cableDispenseStatus" in KnownKeys;
    assert "cableDispenseCommand" in KnownKeys && "SequenceNum" in KnownKeys;
  }

  lemma {:induction false} FillKeepsKnown(m: map<string, string>, extra: seq<string>,
                                          read: string -> Option<(string, string)>)
    requires forall j :: 0 <= j < |extra| ==> read(extra[j]).None? || read(extra[j]).value.0 !in KnownKeys
    ensures AgreeOnKnown(Fill(m, extra, read), m)
    decreases |extra|
  {
    if extra != [] {
      var init := extra[..|extra| - 1];
      forall j | 0 <= j < |init|
        ensures read(init[j]).None? || read(init[j]).value.0 !in KnownKeys
      {
        assert init[j] == extra[j];
      }
      FillKeepsKnown(m, init, read);
    }
  }

  /** Reading the same lines into two maps that agree on the known keys keeps them agreeing. */
  lemma {:induction false} FillAgrees(m1: map<string, string>, m2: map<string, string>, lines: seq<string>,
                                      read: string -> Option<(string, string)>)
    requires AgreeOnKnown(m1, m2)
    ensures AgreeOnKnown(Fill(m1, lines, read), Fill(m2, lines, read))
    decreases |lines|
  {
    if lines != [] {
      FillAgrees(m1, m2, lines[..|lines| - 1], read);
    }
  }

  /** Lines whose keys are all unknown, anywhere in the file, leave the status as it would be without them. */
  lemma UnknownKeysIgnored(before: seq<string>, extra: seq<string>, after: seq<string>)
    requires forall j :: 0 <= j < |extra| ==> Entry(extra[j]).None? || Entry(extra[j]).value.0 !in KnownKeys
    ensures BuildStatus(FieldsOf(before + extra + after)) == BuildStatus(FieldsOf(before + after))
  {
    FillAppend(map[], before + extra, after, Entry);
    FillAppend(map[], before, extra, Entry);
    FillAppend(map[], before, after, Entry);
    FillKeepsKnown(FieldsOf(before), extra, Entry);
    FillAgrees(FieldsOf(before + extra), FieldsOf(before), after, Entry);
    OnlyKnownKeys(FieldsOf(before + extra + after), FieldsOf(before + after));
  }

  /** With no line for a field, it takes its default: 0 for numbers, "" for the dispense strings. */
  lemma MissingKeyDefaults(lines: seq<string>, key: string)
    requires forall j :: 0 <= j < |lines| ==> Entry(lines[j]).None? || Entry(lines[j]).value.0 != key
    ensures Number(FieldsOf(lines), key) == Zero && Words(FieldsOf(lines), key) == ""
  {
    if key in FieldsOf(lines) {
      KeysFromLines(lines, key);
    }
  }

  /** The last line storing a field's key gives that field its text. */
  lemma LastLineGivesField(lines: seq<string>, i: nat, key: string, v: string)
    requires i < |lines| && Entry(lines[i]) == Some((key, v))
    requires forall j :: i < j < |lines| ==> Entry(lines[j]).None? || Entry(lines[j]).value.0 != key
    ensures Number(FieldsOf(lines), key) == Given(v) && Words(FieldsOf(lines), key) == v
  {
    LastOccurrenceWins(lines, i, key, v);
  }
}
