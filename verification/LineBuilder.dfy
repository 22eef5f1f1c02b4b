/** The builder of batches of line protocol records (src/ilp/builder.cpp, src/ilp/builder.hpp). */
module LineBuilder {
  import opened Arithmetic
  import opened Wrappers
  import opened Decimal
  import opened LineProtocol
  import LineProtocolTheorems

  /** The arguments `addValue` is overloaded on; times are counts of their own unit. */
  datatype Input =
    | Flag(b: bool)
    | Int32(i: int)
    | UInt32(u: nat)
    | Int64(i: int)
    | UInt64(u: nat)
    | Float(text: string)
    | Double(text: string)
    | String(s: string)
    | Micros(t: int)
    | Millis(t: int)
    | Nanos(t: int)

  /** What a reader is to find. */
  function Meaning(v: Input): Value {
    match v
    case Flag(b) => Bool(b)
    case Int32(i) => Int(i)
    case UInt32(u) => UInt(u)
    case Int64(i) => Int(i)
    case UInt64(u) => UInt(u)
    case Float(text) => Real(text)
    case Double(text) => Real(text)
    case String(s) => Text(s)
    case Micros(t) => Time(t)
    case Millis(t) => Time(1000 * t)
    case Nanos(t) => Time(Truncated(t, 1000))
  }

  datatype ProcessType = Function | Step | Other

  function TypeName(t: ProcessType): string {
    match t
    case Function => "function"
    case Step => "step"
    case Other => "other"
  }

  type Tags = seq<(string, string)>
  type Values = seq<(string, Input)>

  datatype Process = Process(tags: Tags, values: Values, timestamp: int, duration: int, kind: ProcessType)

  datatype Apm = Apm(
    processes: seq<Process>, tags: Tags, values: Values,
    id: string, application: string, timestamp: int, duration: int)

  // ---- the records an APM record stands for ----

  function Meanings(values: Values): seq<(string, Value)> {
    seq(|values|, i requires 0 <= i < |values| => (values[i].0, Meaning(values[i].1)))
  }

  function Lasting(timestamp: int, duration: int): seq<(string, Value)> {
    [("duration", Int(duration)), ("end_timestamp", Time(Truncated(timestamp + duration, 1000)))]
  }

  function ApmEntry(name: string, apm: Apm): Entry {
    Entry(name, [("application", apm.application)] + apm.tags,
          [("id", Text(apm.id))] + Lasting(apm.timestamp, apm.duration) + Meanings(apm.values), apm.timestamp)
  }

  function ProcessEntry(name: string, apm: Apm, p: Process): Entry {
    Entry(name, [("application", apm.application), ("type", TypeName(p.kind))] + p.tags,
          [("id", Text(apm.id))] + Lasting(p.timestamp, p.duration) + Meanings(p.values), p.timestamp)
  }

  /** One record for the whole and one for each process, in order. */
  function Entries(name: string, apm: Apm): (es: seq<Entry>)
    ensures |es| == 1 + |apm.processes|
  {
    [ApmEntry(name, apm)] + seq(|apm.processes|, i requires 0 <= i < |apm.processes| => ProcessEntry(name, apm, apm.processes[i]))
  }

  // ---- the builder ----

  method CleanText(view: string, space: bool) returns (value: string)
    ensures value == Clean(view, space)
  {
    hide Clean;
    value := "";
    assert view[..0] == "";
    CleanNone(space);
    for i := 0 to |view|
      invariant value == Clean(view[..i], space)
    {
      var c := view[i];
      CleanNext(view[..i], c, space);
      assert view[..i + 1] == view[..i] + [c];
      match c {
        case ',' => value := value + "\\,";
        case '"' => value := value + "\\\"";
        case '=' => value := value + "\\=";
        case '\n' => value := value + "\\\n";
        case '\r' => value := value + "\\\r";
        case '\\' => value := value + "\\\\";
        case ' ' => if space { value := value + "\\ "; } else { value := value + [c]; }
        case _ => value := value + [c];
      }
    }
    assert view[..|view|] == view;
  }

  lemma CleanNone(space: bool)
    ensures Clean("", space) == ""
  {
  }

  lemma {:induction false} CleanNext(v: string, c: char, space: bool)
    ensures Clean(v + [c], space) == Clean(v, space) + if Escaped(c, space) then ['\\', c] else [c]
  {
    if v != "" {
      CleanNext(v[1..], c, space);
      assert (v + [c])[1..] == v[1..] + [c];
    } else {
      assert ([] + [c])[1..] == "";
    }
  }

  class Record {
    const name: string
    var tags: string
    var value: string
    var timestamp: int

    constructor (name: string, now: int)
      ensures this.name == name && tags == "" && value == "" && timestamp == now
    {
      this.name, tags, value, timestamp := name, "", "", now;
    }
  }

  class Builder {
    var value: string
    var record: Record?
    /** The records ended so far and the one under way. */
    ghost var ended: seq<Entry>
    ghost var current: Entry

    ghost predicate Valid()
      reads this, record
    {
      && value == Batch(ended)
      && (record != null ==>
           && record.name == current.name
           && record.tags == Join(TagTexts(current.tags))
           && record.value == Join(FieldTexts(current.values))
           && record.timestamp == current.timestamp)
    }

    constructor ()
      ensures Valid() && ended == [] && record == null
    {
      value, record, ended := "", null, [];
    }

    /** `now` is the clock's reading, the timestamp of a record that is given none. */
    method StartRecord(name: string, now: int)
      requires Valid()
      modifies this
      ensures Valid() && record != null && fresh(record)
      ensures ended == old(ended) && current == Entry(name, [], [], now)
    {
      record := new Record(name, now);
      current := Entry(name, [], [], now);
    }

    method AddTag(key: string, v: string)
      requires Valid() && record != null
      modifies this`current, record
      ensures Valid()
      ensures current == old(current).(tags := old(current.tags) + [(key, v)])
    {
      TagsAppend(current.tags, (key, v));
      if record.tags != "" {
        record.tags := record.tags + ",";
      }
      var text := CleanText(v, true);
      record.tags := record.tags + (key + "=" + text);
      current := current.(tags := current.tags + [(key, v)]);
    }

    method AddValue(key: string, v: Input)
      requires Valid() && record != null
      modifies this`current, record
      ensures Valid()
      ensures current == old(current).(values := old(current.values) + [(key, Meaning(v))])
    {
      ValuesAppend(current.values, (key, Meaning(v)));
      hide Batch, Join, TagTexts, FieldTexts, Clean, DecInt, Truncated;
      if record.value != "" {
        record.value := record.value + ",";
      }
      var text: string;
      match v {
        case Flag(b) => text := if b then "true" else "false";
        case Int32(i) => text := DecInt(i) + "i";
        case UInt32(u) => text := DecInt(u) + "u";
        case Int64(i) => text := DecInt(i) + "i";
        case UInt64(u) => text := DecInt(u) + "u";
        case Float(f) => text := f;
        case Double(d) => text := d;
        case String(s) =>
          text := CleanText(s, false);
          text := "\"" + text + "\"";
        case Micros(t) => text := DecInt(t) + "t";
        case Millis(t) => text := DecInt(1000 * t) + "t";
        case Nanos(t) => text := DecInt(Truncated(t, 1000)) + "t";
      }
      record.value := record.value + (key + "=" + text);
      current := current.(values := current.values + [(key, Meaning(v))]);
    }

    method Timestamp(v: int)
      requires Valid() && record != null
      modifies this`current, record
      ensures Valid() && current == old(current).(timestamp := v)
    {
      record.timestamp := v;
      current := current.(timestamp := v);
    }

    /** The record stays the current one. */
    method EndRecord()
      requires Valid() && record != null
      modifies this`value, this`ended
      ensures Valid() && ended == old(ended) + [current]
    {
      BatchAppend(ended, current);
      LineText(record.name, record.tags, record.value, DecInt(record.timestamp));
      hide Batch, Join, TagTexts, FieldTexts, DecInt;
      value := value + (record.name + "," + record.tags + " " + record.value + " " + DecInt(record.timestamp) + "\n");
      ended := ended + [current];
    }

    /** Hands the batch over.  A reader gets back the ended records exactly if each has a tag, a value
        and a legible name and keys, and nothing at all if only a tag or a value is missing. */
    method Finish() returns (text: string)
      requires Valid()
      modifies this`value, this`ended
      ensures Valid() && ended == []
      ensures text == Batch(old(ended))
      ensures AllFormatted(old(ended)) ==>
        (Read(text) == Some(old(ended)) <==> AllComplete(old(ended)) && AllLegible(old(ended)))
      ensures AllFormatted(old(ended)) && AllLegible(old(ended)) && !AllComplete(old(ended)) ==> Read(text) == None
    {
      assert Batch([]) == "";
      hide AllFormatted, AllLegible, AllComplete, Read, Batch;
      if AllFormatted(ended) {
        LineProtocolTheorems.ReadBatchIff(ended);
        if AllLegible(ended) { ReadBatch(ended); }
      }
      text := value;
      value := "";
      ended := [];
    }

    method AddAttributes(tags: Tags, values: Values)
      requires Valid() && record != null
      modifies this`current, record
      ensures Valid()
      ensures current == old(current).(tags := old(current.tags) + tags, values := old(current.values) + Meanings(values))
    {
      hide Batch, Join, TagTexts, FieldTexts;
      for i := 0 to |tags|
        invariant Valid()
        invariant current == old(current).(tags := old(current.tags) + tags[..i])
      {
        AddTag(tags[i].0, tags[i].1);
      }
      for i := 0 to |values|
        invariant Valid()
        invariant current == old(current).(tags := old(current.tags) + tags, values := old(current.values) + Meanings(values)[..i])
      {
        AddValue(values[i].0, values[i].1);
      }
    }

    method AddApm(apm: Apm)
      requires Valid() && record != null && current.tags == [] && current.values == []
      modifies this`current, record
      ensures Valid() && current == ApmEntry(old(current.name), apm)
    {
      hide Batch, Join, TagTexts, FieldTexts, Meanings, Truncated, TypeName;
      var end := apm.timestamp + apm.duration;
      AddTag("application", apm.application);
      AddValue("id", String(apm.id));
      AddValue("duration", Int64(apm.duration));
      AddValue("end_timestamp", Nanos(end));
      Timestamp(apm.timestamp);
      AddAttributes(apm.tags, apm.values);
    }

    method AddProcess(process: Process)
      requires Valid() && record != null
      modifies this`current, record
      ensures Valid()
      ensures current == Entry(old(current.name),
        old(current.tags) + [("type", TypeName(process.kind))] + process.tags,
        old(current.values) + Lasting(process.timestamp, process.duration) + Meanings(process.values), process.timestamp)
    {
      hide Batch, Join, TagTexts, FieldTexts, Meanings, Truncated, TypeName;
      var end := process.timestamp + process.duration;
      AddTag("type", TypeName(process.kind));
      AddValue("duration", Int64(process.duration));
      AddValue("end_timestamp", Nanos(end));
      Timestamp(process.timestamp);
      AddAttributes(process.tags, process.values);
    }

    /** Appends the record of the whole and those of its processes, and nothing else. */
    method Add(name: string, apm: Apm, now: int)
      requires Valid()
      modifies this
      ensures Valid() && ended == old(ended) + Entries(name, apm)
    {
      hide Batch, Join, TagTexts, FieldTexts, Entries, ApmEntry;
      EntriesAt(name, apm, 0);
      StartRecord(name, now);
      AddApm(apm);
      EndRecord();
      if apm.processes == [] {
        return;
      }
      for i := 0 to |apm.processes|
        invariant Valid() && (record == null || fresh(record))
        invariant ended == old(ended) + Entries(name, apm)[..1 + i]
      {
        EntriesAt(name, apm, i);
        EntriesAt(name, apm, i + 1);
        StartRecord(name, now);
        AddTag("application", apm.application);
        AddValue("id", String(apm.id));
        ProcessParts(name, apm, apm.processes[i]);
        AddProcess(apm.processes[i]);
        EndRecord();
      }
    }
  }

  lemma LineText(name: string, tags: string, value: string, time: string)
    ensures name + "," + tags + " " + value + " " + time + "\n" ==
      name + "," + tags + " " + (value + " " + time) + "\n"
  {
  }

  lemma EntriesAt(name: string, apm: Apm, i: nat)
    requires i <= |apm.processes|
    ensures i == 0 ==> Entries(name, apm)[..1] == [ApmEntry(name, apm)]
    ensures i < |apm.processes| ==>
      Entries(name, apm)[..1 + i + 1] == Entries(name, apm)[..1 + i] + [ProcessEntry(name, apm, apm.processes[i])]
    ensures i == |apm.processes| ==> Entries(name, apm)[..1 + i] == Entries(name, apm)
  {
  }

  lemma ProcessParts(name: string, apm: Apm, p: Process)
    ensures ProcessEntry(name, apm, p) == Entry(name,
      [] + [("application", apm.application)] + [("type", TypeName(p.kind))] + p.tags,
      [] + [("id", Meaning(String(apm.id)))] + Lasting(p.timestamp, p.duration) + Meanings(p.values), p.timestamp)
  {
  }

  lemma TagsAppend(tags: seq<(string, string)>, tag: (string, string))
    ensures Join(TagTexts(tags + [tag])) ==
      (if Join(TagTexts(tags)) == "" then "" else Join(TagTexts(tags)) + ",") + TagText(tag)
  {
    assert TagTexts(tags + [tag]) == TagTexts(tags) + [TagText(tag)];
    JoinAppend(TagTexts(tags), TagText(tag));
  }

  lemma ValuesAppend(values: seq<(string, Value)>, field: (string, Value))
    ensures Join(FieldTexts(values + [field])) ==
      (if Join(FieldTexts(values)) == "" then "" else Join(FieldTexts(values)) + ",") + FieldText(field)
  {
    assert FieldTexts(values + [field]) == FieldTexts(values) + [FieldText(field)];
    JoinAppend(FieldTexts(values), FieldText(field));
  }

  /** Keys that no search for a separator stops in, and numbers formatted as numbers. */
  predicate Readable(tags: Tags, values: Values) {
    && (forall i, c :: 0 <= i < |tags| && c in ALL ==> Quiet(tags[i].0, c))
    && (forall i, c :: 0 <= i < |values| && c in ALL ==> Quiet(values[i].0, c))
    && (forall i :: 0 <= i < |values| ==> WellFormedValue(Meaning(values[i].1)))
  }

  lemma EntryIsReadable(name: string, own: seq<(string, string)>, fields: seq<(string, Value)>, tags: Tags, values: Values, time: int)
    requires forall c :: c in ALL && c != '=' ==> Quiet(name, c)
    requires Readable(tags, values) && own != []
    requires forall i, c :: 0 <= i < |own| && c in ALL ==> Quiet(own[i].0, c)
    requires forall i, c :: 0 <= i < |fields| && c in ALL ==> Quiet(fields[i].0, c)
    requires forall i :: 0 <= i < |fields| ==> !fields[i].1.Real?
    requires fields != []
    ensures var e := Entry(name, own + tags, fields + Meanings(values), time);
      Legible(e, ALL) && RealsFormatted(e) && Complete(e)
  {
    hide Quiet, IsRealText, Meaning;
  }

  /** The keys the builder itself writes. */
  lemma OwnKeys(c: char)
    requires c in ALL
    ensures Quiet("application", c) && Quiet("type", c) && Quiet("id", c) && Quiet("duration", c) && Quiet("end_timestamp", c)
  {
    assert Plain("application") && Plain("type") && Plain("id") && Plain("duration") && Plain("end_timestamp");
    hide Plain, Quiet;
    PlainIsQuiet("application", c);
    PlainIsQuiet("type", c);
    PlainIsQuiet("id", c);
    PlainIsQuiet("duration", c);
    PlainIsQuiet("end_timestamp", c);
  }

  /** What `Add` appends is complete whatever the record holds, and with legible keys it is read back
      exactly. */
  lemma ApmReadsBack(name: string, apm: Apm)
    requires forall c :: c in ALL && c != '=' ==> Quiet(name, c)
    requires Readable(apm.tags, apm.values)
    requires forall i :: 0 <= i < |apm.processes| ==> Readable(apm.processes[i].tags, apm.processes[i].values)
    ensures Read(Batch(Entries(name, apm))) == Some(Entries(name, apm))
  {
    hide Quiet, Readable, Batch, Read, Meanings, Legible, RealsFormatted, Complete;
    var es := Entries(name, apm);
    forall i | 0 <= i < |es| ensures Legible(es[i], ALL) && RealsFormatted(es[i]) && Complete(es[i]) {
      if i == 0 { WholeIsReadable(name, apm); } else { ProcessIsReadable(name, apm, apm.processes[i - 1]); }
    }
    ReadBatch(es);
  }

  lemma WholeIsReadable(name: string, apm: Apm)
    requires forall c :: c in ALL && c != '=' ==> Quiet(name, c)
    requires Readable(apm.tags, apm.values)
    ensures var e := ApmEntry(name, apm); Legible(e, ALL) && RealsFormatted(e) && Complete(e)
  {
    hide Quiet, Readable, Meanings, Legible, RealsFormatted, Complete;
    forall c | c in ALL ensures Quiet("application", c) && Quiet("id", c) && Quiet("duration", c) && Quiet("end_timestamp", c) {
      OwnKeys(c);
    }
    EntryIsReadable(name, [("application", apm.application)], [("id", Text(apm.id))] + Lasting(apm.timestamp, apm.duration),
                    apm.tags, apm.values, apm.timestamp);
  }

  lemma ProcessIsReadable(name: string, apm: Apm, p: Process)
    requires forall c :: c in ALL && c != '=' ==> Quiet(name, c)
    requires Readable(p.tags, p.values)
    ensures var e := ProcessEntry(name, apm, p); Legible(e, ALL) && RealsFormatted(e) && Complete(e)
  {
    hide Quiet, Readable, Meanings, Legible, RealsFormatted, Complete;
    forall c | c in ALL
      ensures Quiet("application", c) && Quiet("type", c) && Quiet("id", c) && Quiet("duration", c) && Quiet("end_timestamp", c)
    {
      OwnKeys(c);
    }
    EntryIsReadable(name, [("application", apm.application), ("type", TypeName(p.kind))],
                    [("id", Text(apm.id))] + Lasting(p.timestamp, p.duration), p.tags, p.values, p.timestamp);
  }

  /** Times of any unit are written as the same instant's microseconds; a finer one is rounded towards zero. */
  lemma TimesAgree(t: int)
    ensures Meaning(Micros(t)) == Time(t)
    ensures Meaning(Millis(t)) == Meaning(Micros(1000 * t)) == Meaning(Nanos(1000000 * t))
    ensures Meaning(Nanos(t)).Time?
    ensures var m := Meaning(Nanos(t)).micros;
      (t >= 0 ==> 1000 * m <= t < 1000 * (m + 1)) && (t <= 0 ==> 1000 * (m - 1) < t <= 1000 * m)
  {
    assert Truncated(1000000 * t, 1000) == 1000 * t by {
      var q := Truncated(1000000 * t, 1000);
      assert t >= 0 ==> q * 1000 <= 1000000 * t < (q + 1) * 1000;
      assert t <= 0 ==> (q - 1) * 1000 < 1000000 * t <= q * 1000;
    }
  }

  /** The value the first pair with this key has. */
  function First<V>(key: string, pairs: seq<(string, V)>): Option<V> {
    if pairs == [] then None else if pairs[0].0 == key then Some(pairs[0].1) else First(key, pairs[1..])
  }

  /** A record says for how long something went on from its timestamp. */
  predicate Lasts(e: Entry, timestamp: int, duration: int) {
    && e.timestamp == timestamp
    && First("duration", e.values) == Some(Int(duration))
    && First("end_timestamp", e.values) == Some(Meaning(Nanos(timestamp + duration)))
  }

  lemma FirstThree(id: Value, timestamp: int, duration: int, rest: seq<(string, Value)>)
    ensures var vs := [("id", id)] + Lasting(timestamp, duration) + rest;
      && First("id", vs) == Some(id)
      && First("duration", vs) == Some(Int(duration))
      && First("end_timestamp", vs) == Some(Meaning(Nanos(timestamp + duration)))
      && |vs| == 3 + |rest| && vs[3..] == rest
  {
    hide Truncated, First;
    var took, end := Int(duration), Meaning(Nanos(timestamp + duration));
    var last := [("end_timestamp", end)] + rest;
    var two := [("duration", took)] + last;
    assert [("id", id)] + Lasting(timestamp, duration) + rest == [("id", id)] + two;
    FirstStep("id", "id", id, two);
    FirstStep("duration", "id", id, two);
    FirstStep("duration", "duration", took, last);
    FirstStep("end_timestamp", "id", id, two);
    FirstStep("end_timestamp", "duration", took, last);
    FirstStep("end_timestamp", "end_timestamp", end, rest);
    assert "id"[0] != "duration"[0] && "id"[0] != "end_timestamp"[0] && "duration"[0] != "end_timestamp"[0];
  }

  lemma FirstStep<V>(key: string, k: string, v: V, rest: seq<(string, V)>)
    ensures First(key, [(k, v)] + rest) == if k == key then Some(v) else First(key, rest)
  {
    assert ([(k, v)] + rest)[1..] == rest;
  }

  /** What the records of an APM record say: the application it is from, its id, and for the whole and
      for each process in turn when it began, how long it took and when it ended; then the tags and
      values it was given. */
  lemma EntriesSay(name: string, apm: Apm, i: nat)
    requires i <= |apm.processes|
    ensures var e := Entries(name, apm)[i];
      && e.name == name
      && First("application", e.tags) == Some(apm.application)
      && First("id", e.values) == Some(Text(apm.id))
      && |e.values| >= 3
      && if i == 0 then
           && Lasts(e, apm.timestamp, apm.duration)
           && e.tags[1..] == apm.tags && e.values[3..] == Meanings(apm.values)
         else
           var p := apm.processes[i - 1];
           && Lasts(e, p.timestamp, p.duration) && |e.tags| >= 2
           && e.tags[1] == ("type", match p.kind case Function => "function" case Step => "step" case Other => "other")
           && e.tags[2..] == p.tags && e.values[3..] == Meanings(p.values)
  {
    hide Truncated, Meanings;
    if i == 0 {
      FirstThree(Text(apm.id), apm.timestamp, apm.duration, Meanings(apm.values));
    } else {
      var p := apm.processes[i - 1];
      FirstThree(Text(apm.id), p.timestamp, p.duration, Meanings(p.values));
      var e := Entries(name, apm)[i];
      assert e == ProcessEntry(name, apm, p);
      assert ([("application", apm.application), ("type", TypeName(p.kind))] + p.tags)[2..] == p.tags;
    }
  }
}
