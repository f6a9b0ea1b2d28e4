/** The in-place merge of OpenAPI component dictionaries (src/niuu/app.py:391-405). */
module ComponentMerge {
  import opened Text

  /** A component document; lists, numbers and strings are compared whole. */
  datatype Json = Scalar(text: string) | Dict(fields: map<string, Json>)

  /** The left-biased deep merge: what the target has stays, and dictionaries are merged inside. */
  function DeepMerge(t: Json, s: Json): (r: Json)
    decreases s
  {
    if t.Dict? && s.Dict? then
      Dict(map key | key in t.fields.Keys + s.fields.Keys ::
        if key !in s.fields then t.fields[key]
        else if key !in t.fields then s.fields[key]
        else DeepMerge(t.fields[key], s.fields[key]))
    else t
  }

  /** The value at a key path. */
  function At(j: Json, path: seq<string>): Option<Json> {
    if path == [] then Some(j)
    else if j.Dict? && path[0] in j.fields then At(j.fields[path[0]], path[1..])
    else None
  }

  /** A value that is no dictionary stands on the way, so that nothing can be merged below it. */
  predicate Blocked(j: Json, path: seq<string>)
    decreases |path|
  {
    j.Scalar? || (path != [] && path[0] in j.fields && Blocked(j.fields[path[0]], path[1..]))
  }

  /**
   What the merge holds at every key path: a value of the target that is no dictionary is unchanged, a
   dictionary of the target stays one, and a source value is taken over exactly where the target has
   nothing and nothing blocks the way.
   */
  lemma {:induction false} MergedAt(t: Json, s: Json, path: seq<string>)
    ensures var m := DeepMerge(t, s);
      && (At(t, path).Some? && At(t, path).value.Scalar? ==> At(m, path) == At(t, path))
      && (At(t, path).Some? && At(t, path).value.Dict? ==> At(m, path).Some? && At(m, path).value.Dict?)
      && (At(t, path).None? && Blocked(t, path) ==> At(m, path).None?)
      && (At(t, path).None? && !Blocked(t, path) ==> At(m, path) == At(s, path))
    decreases |path|
  {
    if path != [] && t.Dict? && s.Dict? && path[0] in t.fields && path[0] in s.fields {
      MergedAt(t.fields[path[0]], s.fields[path[0]], path[1..]);
    }
  }

  lemma {:induction false} MergeAgain(t: Json, s: Json)
    ensures DeepMerge(DeepMerge(t, s), s) == DeepMerge(t, s)
    decreases s
  {
    if t.Dict? && s.Dict? {
      var m := DeepMerge(t, s);
      forall key | key in m.fields && key in s.fields
        ensures DeepMerge(m.fields[key], s.fields[key]) == m.fields[key]
      {
        if key in t.fields {
          MergeAgain(t.fields[key], s.fields[key]);
        } else {
          MergeItself(s.fields[key]);
        }
      }
      assert DeepMerge(m, s).fields == m.fields;
    }
  }

  lemma {:induction false} MergeItself(s: Json)
    ensures DeepMerge(s, s) == s
    decreases s
  {
    if s.Dict? {
      forall key | key in s.fields ensures DeepMerge(s.fields[key], s.fields[key]) == s.fields[key] {
        MergeItself(s.fields[key]);
      }
      assert DeepMerge(s, s).fields == s.fields;
    }
  }

  // ---- The merge in place ----

  datatype Slot = Leaf(text: string) | Node(dict: JsonDict)

  /** A dictionary object; nested dictionaries belong to it alone. */
  class JsonDict {
    var fields: map<string, Slot>
    ghost var repr: set<JsonDict>

    ghost predicate Valid()
      reads this, repr
      decreases repr
    {
      && this in repr
      && (forall k | k in fields && fields[k].Node? ::
            fields[k].dict in repr && fields[k].dict.repr <= repr - {this} && fields[k].dict.Valid())
      && (forall k, l | k in fields && l in fields && k != l && fields[k].Node? && fields[l].Node? ::
            fields[k].dict.repr !! fields[l].dict.repr)
    }

    ghost function Value(): Json
      requires Valid()
      reads this, repr
      decreases repr
    {
      Dict(map k | k in fields :: SlotValue(k))
    }

    ghost function SlotValue(k: string): Json
      requires Valid() && k in fields
      reads this, repr
      decreases repr, 0
    {
      match fields[k]
      case Leaf(text) => Scalar(text)
      case Node(d) => d.Value()
    }

    constructor Empty()
      ensures Valid() && fresh(repr) && fields == map[] && Value() == Dict(map[])
    {
      fields, repr := map[], {this};
      new;
      assert Value().fields == map[];
    }

    /** Writes a value of its own under a new key. */
    method Put(key: string, slot: Slot)
      requires Valid() && key !in fields
      requires slot.Node? ==> slot.dict.Valid() && slot.dict.repr !! repr
      modifies this
      ensures Valid() && fields == old(fields)[key := slot]
      ensures repr == old(repr) + if slot.Node? then slot.dict.repr else {}
      ensures forall k | k in old(fields) :: SlotValue(k) == old(SlotValue(k))
      ensures SlotValue(key) == match slot case Leaf(t) => Scalar(t) case Node(d) => old(d.Value())
    {
      fields := fields[key := slot];
      if slot.Node? {
        repr := repr + slot.dict.repr;
      }
    }

    /** A dictionary object with the value's entries, sharing nothing with any other. */
    static method DeepCopy(j: Json) returns (slot: Slot)
      ensures j.Scalar? ==> slot == Leaf(j.text)
      ensures j.Dict? ==> slot.Node? && slot.dict.Valid() && fresh(slot.dict.repr) && slot.dict.Value() == j
      decreases j
    {
      if j.Scalar? {
        return Leaf(j.text);
      }
      var d := new JsonDict.Empty();
      var keys := j.fields.Keys;
      while keys != {}
        invariant keys <= j.fields.Keys
        invariant d.Valid() && fresh(d.repr) && d.fields.Keys == j.fields.Keys - keys
        invariant forall k | k in d.fields :: d.SlotValue(k) == j.fields[k]
      {
        var key :| key in keys;
        var value := DeepCopy(j.fields[key]);
        d.Put(key, value);
        keys := keys - {key};
      }
      assert d.Value().fields == j.fields;
      return Node(d);
    }

    /** Merges inside a nested dictionary; the other entries stay as they are. */
    method MergeNested(key: string, s: Json)
      requires Valid() && key in fields && fields[key].Node? && s.Dict?
      modifies repr
      ensures Valid() && fresh(repr - old(repr)) && fields == old(fields)
      ensures SlotValue(key) == DeepMerge(old(SlotValue(key)), s)
      ensures forall k | k in fields && k != key :: SlotValue(k) == old(SlotValue(k))
      decreases s, 2
    {
      var d := fields[key].dict;
      d.Merge(s);
      repr := repr + d.repr;
    }

    /** One entry of the source: copied where the target has none, merged inside where both are dictionaries. */
    method MergeEntry(key: string, value: Json)
      requires Valid()
      modifies repr
      ensures Valid() && fresh(repr - old(repr))
      ensures forall k :: k in fields <==> k in old(fields) || k == key
      ensures SlotValue(key) == if key in old(fields) then DeepMerge(old(SlotValue(key)), value) else value
      ensures forall k | k in old(fields) && k != key :: SlotValue(k) == old(SlotValue(k))
      decreases value, 3
    {
      if key !in fields {
        var copy := DeepCopy(value);
        Put(key, copy);
        return;
      }
      if fields[key].Node? && value.Dict? {
        MergeNested(key, value);
      }
    }

    /** The recursive merge: afterwards this dictionary holds the left-biased deep merge, in its own objects. */
    method Merge(s: Json)
      requires Valid() && s.Dict?
      modifies repr
      ensures Valid() && fresh(repr - old(repr)) && Value() == DeepMerge(old(Value()), s)
      decreases s, 1
    {
      ghost var target := Value();
      hide DeepMerge, MergedField;
      var keys := s.fields.Keys;
      while keys != {}
        invariant keys <= s.fields.Keys
        invariant Valid() && fresh(repr - old(repr))
        invariant forall k :: k in fields <==> k in target.fields || (k in s.fields && k !in keys)
        invariant forall k | k in fields && k in s.fields && k !in keys :: SlotValue(k) == MergedField(target, s, k)
        invariant forall k | k in fields && (k !in s.fields || k in keys) :: SlotValue(k) == target.fields[k]
      {
        var key :| key in keys;
        FieldOf(target, s, key);
        MergeEntry(key, s.fields[key]);
        keys := keys - {key};
      }
      MergedFields(target, s);
      assert Value().fields == DeepMerge(target, s).fields;
    }
  }

  /** What the merge leaves under a key of the source. */
  function MergedField(t: Json, s: Json, key: string): Json
    requires t.Dict? && s.Dict? && key in s.fields
  {
    if key in t.fields then DeepMerge(t.fields[key], s.fields[key]) else s.fields[key]
  }

  lemma FieldOf(t: Json, s: Json, key: string)
    requires t.Dict? && s.Dict? && key in s.fields
    ensures MergedField(t, s, key) == if key in t.fields then DeepMerge(t.fields[key], s.fields[key]) else s.fields[key]
  {
  }

  lemma MergedFields(t: Json, s: Json)
    requires t.Dict? && s.Dict?
    ensures DeepMerge(t, s).Dict? && DeepMerge(t, s).fields.Keys == t.fields.Keys + s.fields.Keys
    ensures forall k | k in DeepMerge(t, s).fields ::
      DeepMerge(t, s).fields[k] == if k in s.fields then MergedField(t, s, k) else t.fields[k]
  {
  }
}
