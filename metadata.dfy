/** `tennis.Metadata` of src/tennis.js over an already parsed item list:
    the operator schema map and the memoised attribute lookup. */
module Schemas {
  import opened Results
  import opened Tensors

  /** An input or output slot of an operator schema; a missing string
      field is "". */
  datatype Slot = Slot(name: string, typeName: string, description: string)

  datatype AttributeSchema = AttributeSchema(name: string, typeName: string)

  /** `inputs`/`outputs` are `None` when the schema lacks the field; a
      missing attribute list is empty. */
  datatype Schema = Schema(inputs: Option<seq<Slot>>, outputs: Option<seq<Slot>>, attributes: seq<AttributeSchema>)

  /** One parsed item; an empty name or a missing schema makes it ignored. */
  datatype Item = Item(name: string, schema: Option<Schema>)

  predicate Counts(item: Item)
  {
    item.name != "" && item.schema.Some?
  }

  function DuplicateKey(name: string): Error
  {
    LoaderError("Duplicate metadata key '" + name + "'.")
  }

  /** The constructor's loop: every counted item in order, a duplicate name
      being an error. */
  function SchemaMap(items: seq<Item>): (r: Result<map<string, Schema>>)
    ensures r.Ok? ==> "" !in r.value
  {
    if items == [] then Ok(map[])
    else
      var m :- SchemaMap(items[..|items| - 1]);
      var item := items[|items| - 1];
      if !Counts(item) then Ok(m)
      else if item.name in m then Fail(DuplicateKey(item.name))
      else Ok(m[item.name := item.schema.value])
  }

  ghost predicate DistinctNames(items: seq<Item>)
  {
    forall i, j :: 0 <= i < j < |items| && Counts(items[i]) && Counts(items[j]) ==> items[i].name != items[j].name
  }

  /** The map is built exactly when no name is counted twice; it then holds
      exactly the counted names, each with its own schema. */
  lemma {:induction false} SchemaMapSpec(items: seq<Item>)
    ensures SchemaMap(items).Ok? <==> DistinctNames(items)
    ensures SchemaMap(items).Ok? ==> var m := SchemaMap(items).value;
      (forall k :: k in m <==> exists i :: 0 <= i < |items| && Counts(items[i]) && items[i].name == k) &&
      (forall i :: 0 <= i < |items| && Counts(items[i]) ==> m[items[i].name] == items[i].schema.value)
    decreases |items|
  {
    if items != [] {
      var init, last := items[..|items| - 1], items[|items| - 1];
      SchemaMapSpec(init);
      assert forall i :: 0 <= i < |init| ==> init[i] == items[i];
      if SchemaMap(init).Ok? && Counts(last) && last.name in SchemaMap(init).value {
        var i :| 0 <= i < |init| && Counts(init[i]) && init[i].name == last.name;
        assert !DistinctNames(items) by {
          assert items[i].name == items[|items| - 1].name;
        }
      }
      if SchemaMap(init).Fail? {
        assert !DistinctNames(init);
        assert !DistinctNames(items);
      }
    }
  }

  /** Once a prefix holds a duplicate, the whole list fails the same way. */
  lemma {:induction false} SchemaMapStops(items: seq<Item>, i: nat)
    requires i <= |items| && SchemaMap(items[..i]).Fail?
    ensures SchemaMap(items) == SchemaMap(items[..i])
    decreases |items| - i
  {
    if i < |items| {
      assert items[..i + 1][..i] == items[..i];
      SchemaMapStops(items, i + 1);
    } else {
      assert items[..i] == items;
    }
  }

  /** The last attribute of the list with the given name; the population
      loop overwrites earlier ones. */
  function LastNamed(attrs: seq<AttributeSchema>, name: string): (r: Option<AttributeSchema>)
    ensures r.Some? ==> r.value in attrs && r.value.name == name
    ensures r.None? <==> forall i :: 0 <= i < |attrs| ==> attrs[i].name != name
  {
    if attrs == [] then None
    else if attrs[|attrs| - 1].name == name then Some(attrs[|attrs| - 1])
    else LastNamed(attrs[..|attrs| - 1], name)
  }

  function AttributeOf(schema: Option<Schema>, name: string): (r: Option<AttributeSchema>)
    ensures r.Some? ==> schema.Some? && r.value in schema.value.attributes && r.value.name == name
  {
    if schema.None? then None else LastNamed(schema.value.attributes, name)
  }

  /** The metadata object. The attribute cache is keyed by the operator and
      attribute name as a pair; `None` is a cached `null`. */
  class Metadata {
    var schemas: map<string, Schema>
    var attributeCache: map<(string, string), Option<AttributeSchema>>

    /** Every cached attribute is the one the schema map gives. */
    ghost predicate Valid()
      reads this
    {
      forall k :: k in attributeCache ==> attributeCache[k] == AttributeOf(SchemaOf(k.0), k.1)
    }

    constructor (schemas: map<string, Schema>)
      ensures this.schemas == schemas && attributeCache == map[] && Valid()
    {
      this.schemas := schemas;
      attributeCache := map[];
    }

    /** The constructor over a parsed item list. */
    static method Create(items: seq<Item>) returns (r: Result<Metadata>)
      ensures r.Ok? ==> fresh(r.value) && r.value.Valid() && r.value.attributeCache == map[] &&
                        SchemaMap(items) == Ok(r.value.schemas)
      ensures r.Fail? ==> SchemaMap(items) == Fail(r.error)
    {
      var m := map[];
      for i := 0 to |items|
        invariant SchemaMap(items[..i]) == Ok(m)
      {
        var item := items[i];
        assert items[..i + 1][..i] == items[..i];
        if Counts(item) {
          if item.name in m {
            SchemaMapStops(items, i + 1);
            return Fail(DuplicateKey(item.name));
          }
          m := m[item.name := item.schema.value];
        }
      }
      assert items[..|items|] == items;
      var metadata := new Metadata(m);
      r := Ok(metadata);
    }

    /** `getSchema` with a string operator name. */
    function SchemaOf(op: string): (r: Option<Schema>)
      reads this
      ensures r.Some? <==> op in schemas
      ensures r.Some? ==> r.value == schemas[op]
    {
      if op in schemas then Some(schemas[op]) else None
    }

    /** `getSchema(operator)`: only a string operator can equal a map key. */
    function GetSchema(op: Value): (r: Option<Schema>)
      reads this
      ensures r.Some? <==> op.Str? && op.s in schemas
      ensures r.Some? ==> r.value == schemas[op.s]
    {
      if op.Str? then SchemaOf(op.s) else None
    }

    /** `getAttributeSchema`: on a miss, cache `null` for the key and then
        every attribute of the operator's schema; return the cached entry.
        Every answer is the schema's own attribute of that name. */
    method GetAttributeSchema(op: string, name: string) returns (r: Option<AttributeSchema>)
      requires Valid()
      modifies this
      ensures Valid() && schemas == old(schemas)
      ensures r == AttributeOf(SchemaOf(op), name)
      ensures (op, name) in attributeCache && old(attributeCache).Keys <= attributeCache.Keys
    {
      var key := (op, name);
      if key !in attributeCache {
        attributeCache := attributeCache[key := None];
        var schema := SchemaOf(op);
        if schema.Some? {
          Populate(op, schema.value.attributes);
        }
      }
      r := attributeCache[key];
    }

    /** The population loop of `getAttributeSchema`. */
    method Populate(op: string, attrs: seq<AttributeSchema>)
      requires SchemaOf(op).Some? && SchemaOf(op).value.attributes == attrs
      requires forall k :: k in attributeCache && k.0 != op ==> attributeCache[k] == AttributeOf(SchemaOf(k.0), k.1)
      requires forall k :: k in attributeCache && k.0 == op ==>
                 attributeCache[k] == LastNamed(attrs, k.1) || attributeCache[k] == None
      modifies this
      ensures Valid() && schemas == old(schemas) && old(attributeCache).Keys <= attributeCache.Keys
    {
      for i := 0 to |attrs|
        invariant schemas == old(schemas) && old(attributeCache).Keys <= attributeCache.Keys
        invariant forall k :: k in attributeCache && k.0 != op ==> attributeCache[k] == AttributeOf(SchemaOf(k.0), k.1)
        invariant forall k :: k in attributeCache && k.0 == op ==>
                    if LastNamed(attrs[..i], k.1).Some? then attributeCache[k] == LastNamed(attrs[..i], k.1)
                    else attributeCache[k] == LastNamed(attrs, k.1) || attributeCache[k] == None
      {
        assert attrs[..i + 1][..i] == attrs[..i];
        attributeCache := attributeCache[(op, attrs[i].name) := Some(attrs[i])];
      }
      assert attrs[..|attrs|] == attrs;
    }
  }

  /** `getAttributeSchema` as written: the cache key is the string
      `op + ':' + name`. Returns the answer and the new cache. */
  function AttributeLookupAsWritten(schemas: map<string, Schema>, cache: map<string, Option<AttributeSchema>>,
                                    op: string, name: string): (r: (Option<AttributeSchema>, map<string, Option<AttributeSchema>>))
    ensures op + ":" + name in cache ==> r == (cache[op + ":" + name], cache)
    ensures cache.Keys <= r.1.Keys && op + ":" + name in r.1 && r.0 == r.1[op + ":" + name]
  {
    var key := op + ":" + name;
    if key in cache then (cache[key], cache)
    else
      var seeded := cache[key := None];
      var filled := if op in schemas then PopulateAsWritten(seeded, op, schemas[op].attributes) else seeded;
      (filled[key], filled)
  }

  function PopulateAsWritten(cache: map<string, Option<AttributeSchema>>, op: string, attrs: seq<AttributeSchema>): (r: map<string, Option<AttributeSchema>>)
    ensures cache.Keys <= r.Keys
  {
    if attrs == [] then cache
    else PopulateAsWritten(cache, op, attrs[..|attrs| - 1])[op + ":" + attrs[|attrs| - 1].name := Some(attrs[|attrs| - 1])]
  }

  /** Keys collide as written, in both orders. After a lookup of attribute
      "b:c" of operator "a", attribute "c" of the unknown operator "a:b" is
      answered with that attribute; after a lookup of attribute "c" of "a:b"
      first, attribute "b:c" of "a" is reported missing although the schema
      has it. */
  lemma AttributeKeyCollision()
    ensures var attr := AttributeSchema("b:c", "int32");
      var schemas := map["a" := Schema(None, None, [attr])];
      var known := AttributeLookupAsWritten(schemas, map[], "a", "b:c");
      known.0 == Some(attr) &&
      AttributeLookupAsWritten(schemas, known.1, "a:b", "c").0 == Some(attr) &&
      "a:b" !in schemas
    ensures var attr := AttributeSchema("b:c", "int32");
      var schemas := map["a" := Schema(None, None, [attr])];
      var first := AttributeLookupAsWritten(schemas, map[], "a:b", "c");
      AttributeLookupAsWritten(schemas, first.1, "a", "b:c").0 == None &&
      AttributeOf(Some(schemas["a"]), "b:c") == Some(attr)
  {
    var attr := AttributeSchema("b:c", "int32");
    var schemas := map["a" := Schema(None, None, [attr])];
    assert "a:b" + ":" + "c" == "a" + ":" + "b:c";
  }
}
