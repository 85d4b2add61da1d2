/** The daemon lease file of src/lock.rs: the text an owner writes, the text a
    reader may find half written, and what parsing either one can yield. */
module Lease {
  import opened Text

  datatype Identity = Identity(instance: string, token: string)

  datatype Owner = Owner(pid: nat, resource: string, executable: string,
                         instance: Option<string>, token: Option<string>)

  datatype Parsed = Malformed | Parsed(owner: Owner)

  const PID := "pid="
  const RESOURCE := "resource="
  const EXECUTABLE := "executable="
  const INSTANCE := "instance_id="
  const TOKEN := "handoff_token="

  function FieldNames(id: Option<Identity>): seq<string> {
    [PID, RESOURCE, EXECUTABLE] + if id.Some? then [INSTANCE, TOKEN] else []
  }

  function FieldValues(pid: nat, resource: string, executable: string, id: Option<Identity>): seq<string> {
    [NatText(pid), resource, executable] + if id.Some? then [id.value.instance, id.value.token] else []
  }

  /** The lines `write_metadata_using` formats, each ended by a newline in the file. */
  function Records(names: seq<string>, values: seq<string>): (ls: seq<string>)
    requires |names| == |values|
  {
    seq(|names|, i requires 0 <= i < |names| => names[i] + values[i])
  }

  function Join(lines: seq<string>): string {
    if lines == [] then "" else lines[0] + "\n" + Join(lines[1..])
  }

  function Metadata(pid: nat, resource: string, executable: string, id: Option<Identity>): string {
    Join(Records(FieldNames(id), FieldValues(pid, resource, executable, id)))
  }

  function StripReturn(line: string): string {
    if |line| > 0 && line[|line| - 1] == '\r' then line[..|line| - 1] else line
  }

  /** `str::lines`: a terminated line loses its newline and one carriage return. */
  function Lines(s: string): seq<string>
    decreases |s|
  {
    var i := IndexOf(s, '\n');
    if s == "" then []
    else if i == |s| then [s]
    else [StripReturn(s[..i])] + Lines(s[i + 1..])
  }

  /** The rest of the first line that starts with `prefix`. */
  function Field(lines: seq<string>, prefix: string): Option<string> {
    if lines == [] then None
    else if StartsWith(lines[0], prefix) then Some(lines[0][|prefix|..])
    else Field(lines[1..], prefix)
  }

  const U32_LIMIT := 0x1_0000_0000

  /** `parse_daemon_owner`. */
  function ParseOwner(text: string): Parsed {
    var lines := Lines(text);
    var pidText := Field(lines, PID);
    var executable := Field(lines, EXECUTABLE);
    var resource := Field(lines, RESOURCE);
    if pidText.None? then Malformed
    else
      var pid := ParseUnsigned(pidText.value, U32_LIMIT);
      if pid.None? || pid.value == 0 then Malformed
      else if executable.None? || executable.value == "" || executable.value == "unknown" then Malformed
      else if resource.None? || resource.value == "" then Malformed
      else Parsed(Owner(pid.value, resource.value, executable.value,
                        Field(lines, INSTANCE), Field(lines, TOKEN)))
  }

  /** A text that survives as one line: no newline inside, no carriage return at its end. */
  predicate OneLine(s: string) {
    '\n' !in s && (|s| > 0 ==> s[|s| - 1] != '\r')
  }

  predicate WellFormed(pid: nat, resource: string, executable: string, id: Option<Identity>) {
    && 0 < pid < U32_LIMIT
    && resource != "" && OneLine(resource)
    && executable != "" && executable != "unknown" && OneLine(executable)
    && (id.Some? ==> OneLine(id.value.instance) && OneLine(id.value.token))
  }

  // ---------- lines of a whole or torn file ----------

  /** What is left of the lines `ls` after the file was cut to `cut` characters:
      a number of whole lines and perhaps a proper beginning of the next. */
  predicate Survives(seen: seq<string>, ls: seq<string>) {
    && |seen| <= |ls|
    && (forall i :: 0 <= i < |seen| ==> seen[i] <= ls[i])
    && forall i :: 0 <= i < |seen| - 1 ==> seen[i] == ls[i]
  }

  lemma TornInside(text: string, line: string, rest: string)
    requires OneLine(line) && text <= line + "\n" + rest && 0 < |text| <= |line|
    ensures text <= line && Lines(text) == [text]
  {
    assert text == line[..|text|];
    assert '\n' !in text;
  }

  lemma CutBehind(text: string, line: string, rest: string)
    requires text <= line + "\n" + rest && |line| < |text|
    ensures text == line + "\n" + text[|line| + 1..] && text[|line| + 1..] <= rest
  {
    var whole, tail := line + "\n" + rest, text[|line| + 1..];
    assert whole[..|line|] == line && whole[|line|] == '\n' && whole[|line| + 1..] == rest;
    assert text == whole[..|text|];
  }

  lemma LinesBehind(line: string, tail: string)
    requires OneLine(line)
    ensures Lines(line + "\n" + tail) == [line] + Lines(tail)
  {
    FirstCut(line, tail, '\n');
  }

  lemma OneMoreLine(line: string, seen: seq<string>, ls: seq<string>)
    requires Survives(seen, ls)
    ensures Survives([line] + seen, [line] + ls)
  {
  }

  lemma {:induction false} TornLines(text: string, ls: seq<string>)
    requires forall i :: 0 <= i < |ls| ==> OneLine(ls[i])
    requires text <= Join(ls)
    ensures Survives(Lines(text), ls)
    decreases |ls|
  {
    if text != "" {
      var line, rest := ls[0], Join(ls[1..]);
      if |text| <= |line| {
        TornInside(text, line, rest);
      } else {
        var tail := text[|line| + 1..];
        CutBehind(text, line, rest);
        LinesBehind(line, tail);
        TornLines(tail, ls[1..]);
        OneMoreLine(line, Lines(tail), ls[1..]);
        assert ls == [line] + ls[1..];
      }
    }
  }

  lemma {:induction false} WholeLines(ls: seq<string>)
    requires forall i :: 0 <= i < |ls| ==> OneLine(ls[i])
    ensures Lines(Join(ls)) == ls
  {
    if ls != [] {
      WholeLines(ls[1..]);
      LinesBehind(ls[0], Join(ls[1..]));
    }
  }

  // ---------- fields ----------

  /** Field names are told apart by their first letters. */
  predicate DistinctNames(names: seq<string>) {
    && (forall i :: 0 <= i < |names| ==> |names[i]| > 0)
    && forall i, j :: 0 <= i < j < |names| ==> names[i][0] != names[j][0]
  }

  lemma {:induction false} FieldSkip(lines: seq<string>, k: nat, name: string)
    requires name != "" && k <= |lines|
    requires forall i :: 0 <= i < k ==> |lines[i]| > 0 ==> lines[i][0] != name[0]
    ensures Field(lines, name) == Field(lines[k..], name)
  {
    if k > 0 {
      FieldSkip(lines[1..], k - 1, name);
      assert lines[1..][k - 1..] == lines[k..];
    }
  }

  /** A torn file yields each field whole, cut short, or not at all; a field followed
      by a later line is whole. */
  lemma TornField(seen: seq<string>, names: seq<string>, values: seq<string>, k: nat)
    requires |names| == |values| && k < |names| && DistinctNames(names)
    requires Survives(seen, Records(names, values))
    ensures var f := Field(seen, names[k]);
            && (f.Some? ==> k < |seen| && f.value <= values[k])
            && (k + 1 < |seen| || seen == Records(names, values) ==> f == Some(values[k]))
  {
    var ls := Records(names, values);
    var name := names[k];
    Heads(seen, names, values);
    FieldSkip(seen, if k < |seen| then k else |seen|, name);
    if k < |seen| {
      var rest := seen[k..];
      assert rest[0] == seen[k] && rest[1..] == seen[k + 1..];
      assert ls[k][..|name|] == name && ls[k][|name|..] == values[k];
      if StartsWith(seen[k], name) {
        assert seen[k][|name|..] <= values[k];
      } else {
        FieldSkip(rest[1..], |rest| - 1, name);
      }
    }
  }

  lemma Heads(seen: seq<string>, names: seq<string>, values: seq<string>)
    requires |names| == |values| && DistinctNames(names)
    requires Survives(seen, Records(names, values))
    ensures forall i :: 0 <= i < |seen| && |seen[i]| > 0 ==> seen[i][0] == names[i][0]
  {
    var ls := Records(names, values);
    forall i | 0 <= i < |seen| && |seen[i]| > 0
      ensures seen[i][0] == names[i][0]
    {
      assert seen[i] <= ls[i] && ls[i] == names[i] + values[i];
    }
  }

  lemma MetadataShape(pid: nat, resource: string, executable: string, id: Option<Identity>)
    requires WellFormed(pid, resource, executable, id)
    ensures var names, values := FieldNames(id), FieldValues(pid, resource, executable, id);
            && |names| == |values|
            && DistinctNames(names)
            && forall i :: 0 <= i < |names| ==> OneLine(Records(names, values)[i])
  {
    var names, values := FieldNames(id), FieldValues(pid, resource, executable, id);
    forall i | 0 <= i < |names| ensures OneLine(Records(names, values)[i]) {
      assert OneLine(names[i]) && OneLine(values[i]);
      OneLineConcat(names[i], values[i]);
    }
  }

  lemma OneLineConcat(a: string, b: string)
    requires OneLine(a) && OneLine(b)
    ensures OneLine(a + b)
  {
  }

  /** A field name that is not written is not found. */
  lemma AbsentField(seen: seq<string>, names: seq<string>, values: seq<string>, name: string)
    requires |names| == |values| && DistinctNames(names + [name])
    requires Survives(seen, Records(names, values))
    ensures Field(seen, name) == None
  {
    var all := names + [name];
    assert forall i | 0 <= i < |names| :: all[i] == names[i] && all[|names|] == name;
    Heads(seen, names, values);
    FieldSkip(seen, |seen|, name);
  }

  /** Reading a lease at any moment of its writing yields either nothing usable or an
      owner that is the writer's up to a cut: pid and resource are exact, the later
      fields are beginnings of the written ones, and a field followed by another is whole. */
  lemma TornOwner(text: string, pid: nat, resource: string, executable: string, id: Option<Identity>)
    requires WellFormed(pid, resource, executable, id)
    requires text <= Metadata(pid, resource, executable, id)
    requires ParseOwner(text).Parsed?
    ensures var o := ParseOwner(text).owner;
            && o.pid == pid && o.resource == resource && o.executable <= executable
            && (id.None? ==> o.instance == None && o.token == None)
            && (o.instance.Some? ==> o.executable == executable && o.instance.value <= id.value.instance)
            && (o.token.Some? ==> o.instance == Some(id.value.instance) && o.token.value <= id.value.token)
  {
    var names, values := FieldNames(id), FieldValues(pid, resource, executable, id);
    MetadataShape(pid, resource, executable, id);
    var seen := Lines(text);
    TornLines(text, Records(names, values));
    TornField(seen, names, values, 0);
    TornField(seen, names, values, 1);
    TornField(seen, names, values, 2);
    if id.Some? {
      TornField(seen, names, values, 3);
      TornField(seen, names, values, 4);
    } else {
      AbsentField(seen, names, values, INSTANCE);
      AbsentField(seen, names, values, TOKEN);
    }
    PidRoundTrip(pid);
  }

  lemma PidRoundTrip(pid: nat)
    requires 0 < pid < U32_LIMIT
    ensures ParseUnsigned(NatText(pid), U32_LIMIT) == Some(pid)
  {
    NatRoundTrip(pid);
  }

  lemma WholeFields(pid: nat, resource: string, executable: string, id: Option<Identity>)
    requires WellFormed(pid, resource, executable, id)
    ensures var seen := Lines(Metadata(pid, resource, executable, id));
            && Field(seen, PID) == Some(NatText(pid))
            && Field(seen, RESOURCE) == Some(resource)
            && Field(seen, EXECUTABLE) == Some(executable)
            && Field(seen, INSTANCE) == (if id.Some? then Some(id.value.instance) else None)
            && Field(seen, TOKEN) == (if id.Some? then Some(id.value.token) else None)
  {
    var names, values := FieldNames(id), FieldValues(pid, resource, executable, id);
    MetadataShape(pid, resource, executable, id);
    var seen := Records(names, values);
    WholeLines(seen);
    TornField(seen, names, values, 0);
    TornField(seen, names, values, 1);
    TornField(seen, names, values, 2);
    if id.Some? {
      TornField(seen, names, values, 3);
      TornField(seen, names, values, 4);
    } else {
      AbsentField(seen, names, values, INSTANCE);
      AbsentField(seen, names, values, TOKEN);
    }
  }

  /** Reading a completely written lease yields exactly the owner that wrote it. */
  lemma OwnerRoundTrip(pid: nat, resource: string, executable: string, id: Option<Identity>)
    requires WellFormed(pid, resource, executable, id)
    ensures ParseOwner(Metadata(pid, resource, executable, id))
         == Parsed(Owner(pid, resource, executable,
                         if id.Some? then Some(id.value.instance) else None,
                         if id.Some? then Some(id.value.token) else None))
  {
    WholeFields(pid, resource, executable, id);
    PidRoundTrip(pid);
  }

  /** Whatever the text, a usable owner has a pid that fits 32 bits and is not 0, a resource, and
      an executable that is known. */
  lemma OwnerIsUsable(text: string)
    requires ParseOwner(text).Parsed?
    ensures var o := ParseOwner(text).owner;
            0 < o.pid < 0x1_0000_0000 && o.resource != "" && o.executable != "" && o.executable != "unknown"
  {
  }
}
