/**
 * The queue-trigger binding as it is written into a function's
 * `function.json`: a JSON object whose entries are emitted one at a time.
 */
module QueueTriggerBinding {
  import opened Wrappers

  /** The attributes of a queue trigger binding. */
  datatype QueueTrigger = QueueTrigger(name: string, queueName: string, connection: Option<string>)

  /** One key/value entry of the emitted JSON object. */
  type Entry = (string, string)

  /** A map serializer: it records the entries in the order they are written. */
  class MapSerializer {
    var entries: seq<Entry>

    constructor ()
      ensures entries == []
    {
      entries := [];
    }

    method SerializeEntry(key: string, value: string)
      modifies this
      ensures entries == old(entries) + [(key, value)]
    {
      entries := entries + [(key, value)];
    }

    method End() returns (written: seq<Entry>)
      ensures written == entries
    {
      written := entries;
    }
  }

  function Keys(entries: seq<Entry>): (keys: seq<string>)
    ensures |keys| == |entries|
    ensures forall i :: 0 <= i < |entries| ==> keys[i] == entries[i].0
  {
    seq(|entries|, i requires 0 <= i < |entries| => entries[i].0)
  }

  /** No key is written twice. */
  predicate KeysDistinct(entries: seq<Entry>) {
    forall i, j :: 0 <= i < j < |entries| ==> entries[i].0 != entries[j].0
  }

  /** The value of the first entry with the given key. */
  function Lookup(entries: seq<Entry>, key: string): Option<string> {
    if |entries| == 0 then None
    else if entries[0].0 == key then Some(entries[0].1)
    else Lookup(entries[1..], key)
  }

  /** A lookup fails exactly when no entry has the key, and otherwise finds a written value. */
  lemma {:induction false} LookupFinds(entries: seq<Entry>, key: string)
    ensures Lookup(entries, key).None? <==> key !in Keys(entries)
    ensures Lookup(entries, key).Some? ==>
      exists i :: 0 <= i < |entries| && entries[i] == (key, Lookup(entries, key).value)
  {
    if |entries| > 0 && entries[0].0 != key {
      var rest := entries[1..];
      LookupFinds(rest, key);
      assert Keys(entries) == [entries[0].0] + Keys(rest);
      if Lookup(rest, key).Some? {
        var i :| 0 <= i < |rest| && rest[i] == (key, Lookup(rest, key).value);
        assert entries[i + 1] == rest[i];
      }
    } else if |entries| > 0 {
      assert entries[0].0 == Keys(entries)[0];
    }
  }

  /** Reads a queue trigger back from the entries of its JSON object. */
  function QueueTriggerOf(entries: seq<Entry>): Option<QueueTrigger> {
    match (Lookup(entries, "name"), Lookup(entries, "type"), Lookup(entries, "direction"), Lookup(entries, "queueName"))
    case (Some(name), Some("queueTrigger"), Some("in"), Some(queueName)) =>
      Some(QueueTrigger(name, queueName, Lookup(entries, "connection")))
    case _ => None
  }

  /** The entries written for a binding, in order. */
  function FixedEntries(binding: QueueTrigger): seq<Entry> {
    [("name", binding.name), ("type", "queueTrigger"), ("direction", "in"), ("queueName", binding.queueName)]
  }

  /** Looking a key up in entries that start with a known entry. */
  lemma LookupCons(e: Entry, rest: seq<Entry>, key: string)
    ensures Lookup([e] + rest, key) == if e.0 == key then Some(e.1) else Lookup(rest, key)
  {
    assert ([e] + rest)[1..] == rest;
  }

  /** The fixed entries, optionally followed by `connection`, read back as the binding. */
  lemma {:induction false} EntriesReadBack(binding: QueueTrigger, entries: seq<Entry>)
    requires entries == FixedEntries(binding) +
      (if binding.connection.Some? then [("connection", binding.connection.value)] else [])
    ensures Lookup(entries, "connection") == binding.connection
    ensures QueueTriggerOf(entries) == Some(binding)
  {
    var tail := if binding.connection.Some? then [("connection", binding.connection.value)] else [];
    var e3 := [("queueName", binding.queueName)] + tail;
    var e2 := [("direction", "in")] + e3;
    var e1 := [("type", "queueTrigger")] + e2;
    assert entries == [("name", binding.name)] + e1;
    forall key | key in {"name", "type", "direction", "queueName", "connection"}
      ensures Lookup(entries, key) == Lookup(e1, key) || key == "name"
      ensures Lookup(e1, key) == Lookup(e2, key) || key == "type"
      ensures Lookup(e2, key) == Lookup(e3, key) || key == "direction"
      ensures Lookup(e3, key) == Lookup(tail, key) || key == "queueName"
    {
      LookupCons(("name", binding.name), e1, key);
      LookupCons(("type", "queueTrigger"), e2, key);
      LookupCons(("direction", "in"), e3, key);
      LookupCons(("queueName", binding.queueName), tail, key);
    }
    LookupCons(("name", binding.name), e1, "name");
    LookupCons(("type", "queueTrigger"), e2, "type");
    LookupCons(("direction", "in"), e3, "direction");
    LookupCons(("queueName", binding.queueName), tail, "queueName");
    if binding.connection.Some? {
      LookupCons(("connection", binding.connection.value), [], "connection");
    }
  }

  /** The keys written are pairwise distinct. */
  lemma EntriesDistinct(binding: QueueTrigger, entries: seq<Entry>)
    requires entries == FixedEntries(binding) +
      (if binding.connection.Some? then [("connection", binding.connection.value)] else [])
    ensures KeysDistinct(entries)
  {
    assert Keys(entries)[..4] == ["name", "type", "direction", "queueName"];
  }

  /**
   * Writes the binding: `name`, then the constant `type` and `direction`,
   * then `queueName`, and `connection` last and only when it is set.
   */
  method Serialize(binding: QueueTrigger) returns (entries: seq<Entry>)
    ensures |entries| == if binding.connection.Some? then 5 else 4
    ensures entries[0] == ("name", binding.name)
    ensures entries[1] == ("type", "queueTrigger")
    ensures entries[2] == ("direction", "in")
    ensures entries[3] == ("queueName", binding.queueName)
    ensures binding.connection.Some? ==> entries[4] == ("connection", binding.connection.value)
    ensures "connection" in Keys(entries) <==> binding.connection.Some?
    ensures KeysDistinct(entries)
    ensures QueueTriggerOf(entries) == Some(binding)
  {
    var serializer := new MapSerializer();
    serializer.SerializeEntry("name", binding.name);
    serializer.SerializeEntry("type", "queueTrigger");
    serializer.SerializeEntry("direction", "in");
    serializer.SerializeEntry("queueName", binding.queueName);
    if binding.connection.Some? {
      serializer.SerializeEntry("connection", binding.connection.value);
    }
    entries := serializer.End();
    EntriesReadBack(binding, entries);
    EntriesDistinct(binding, entries);
    LookupFinds(entries, "connection");
  }
}
