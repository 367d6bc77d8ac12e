/**
 * ItemResource: the serialiser that turns a model with its loaded relations
 * into a JSON:API-flavoured document: `type` (here `kind`), a string `id`, `attributes`,
 * an optional `links.self`, a `relationships` object holding one linkage
 * per relation, and an `includes` list with every related model formatted
 * the same way, recursively.
 *
 * The specification functions (Format, RelationsData, ...) say what the document is;
 * the methods (FormatResource, ProcessRelations, ProcessCollection,
 * ProcessModel) build it the way the class does, filling a `$data` value
 * relation by relation and model by model, and are proved to produce the
 * specified document.
 */
module ItemResource {
  import opened Wrappers

  type Attributes = map<string, string>

  /** A model as the serialiser sees it: morph class, key, attributes and loaded relations in load order. */
  datatype Entity = Entity(morph: string, key: Option<nat>, attributes: Attributes, relations: seq<Loaded>)

  /** One entry of `getRelations()`: the relation name and what was loaded. */
  datatype Loaded = Loaded(name: string, value: Relation)

  /**
   * A loaded relation: a collection of models, or a single model that may
   * be missing, together with the morph class of the relation's related
   * model (what `$model->$key()->getRelated()` would build).
   */
  datatype Relation = Many(models: seq<Entity>) | One(model: Option<Entity>, related: string)

  /** `formatRelation`: the type and the raw (not stringified) key. */
  datatype Identifier = Identifier(kind: string, id: Option<nat>)

  /** `relationships[key]->data`: a list for a collection, one identifier or null for a single model. */
  datatype Linkage = ToMany(data: seq<Identifier>) | ToOne(target: Option<Identifier>)

  /** The formatted document. */
  datatype Resource = Resource(kind: string, id: string, attributes: Attributes, selfLink: Option<string>,
                               relationships: seq<(string, Linkage)>, includes: seq<Resource>)

  /** The `$data` that the relation processing fills. */
  datatype Data = Data(relationships: seq<(string, Linkage)>, includes: seq<Resource>)

  /** The relation name, and the morph class, that the serialiser skips. */
  const Pivot := "pivot"

  /** A fresh instance of the related class: no key, no attributes, nothing loaded. */
  function Prototype(related: string): (r: Entity)
  {
    Entity(related, None, map[], [])
  }

  /** The model a single relation is formatted from: the loaded one, or the prototype when it is null. */
  function Target(model: Option<Entity>, related: string): (r: Entity)
  {
    if model.Some? then model.value else Prototype(related)
  }

  // ---- Keys as strings ----

  /** The decimal digits of `n`, most significant first. */
  function Digits(n: nat): (s: string)
    ensures |s| >= 1
    decreases n
  {
    if n < 10 then [DigitChar(n)] else Digits(n / 10) + [DigitChar(n % 10)]
  }

  function DigitChar(d: nat): (r: char)
    requires d < 10
  {
    "0123456789"[d]
  }

  /** `(string) $model->getKey()`: the decimal key, or the empty string for a null key. */
  function KeyString(key: Option<nat>): (r: string)
  {
    if key.Some? then Digits(key.value) else ""
  }

  /** Reading a decimal string back, as the route binding does with an id. */
  function ParseDigits(s: string): (r: nat)
    requires forall i :: 0 <= i < |s| ==> '0' <= s[i] <= '9'
  {
    if s == [] then 0 else 10 * ParseDigits(s[..|s| - 1]) + (s[|s| - 1] as nat - '0' as nat)
  }

  /** The string id is all digits, reads back as the key, and is empty exactly when the key is null. */
  lemma {:induction false} KeyStringRoundTrip(key: Option<nat>)
    ensures forall i :: 0 <= i < |KeyString(key)| ==> '0' <= KeyString(key)[i] <= '9'
    ensures key.Some? ==> ParseDigits(KeyString(key)) == key.value
    ensures KeyString(key) == "" <==> key.None?
  {
    if key.Some? {
      DigitsRoundTrip(key.value);
    }
  }

  lemma {:induction false} DigitsRoundTrip(n: nat)
    ensures forall i :: 0 <= i < |Digits(n)| ==> '0' <= Digits(n)[i] <= '9'
    ensures ParseDigits(Digits(n)) == n
    decreases n
  {
    if n >= 10 {
      DigitsRoundTrip(n / 10);
      var s := Digits(n);
      assert s[..|s| - 1] == Digits(n / 10);
    }
  }

  // ---- Self links ----

  /** `links.self`: present only for a truthy link. */
  function SelfLink(link: Option<string>): (r: Option<string>)
    ensures r.Some? <==> link.Some? && TruthyString(link.value)
    ensures r.Some? ==> r == link
  {
    if link.Some? && TruthyString(link.value) then link else None
  }

  // ---- Sizes, for termination ----

  ghost function Size(e: Entity): (n: nat)
    ensures n >= 1
    ensures e.relations == [] ==> n == 1
    decreases e, 1
  {
    1 + SizeRels(e.relations)
  }

  ghost function SizeRels(rels: seq<Loaded>): (r: nat)
    decreases rels
  {
    if rels == [] then 0 else SizeRels(rels[..|rels| - 1]) + SizeRel(rels[|rels| - 1].value)
  }

  ghost function SizeRel(v: Relation): (n: nat)
    ensures n >= 1
    ensures v.One? ==> n >= 2 && (v.model.Some? ==> n > Size(v.model.value))
    decreases v
  {
    match v
    case Many(ms) => 1 + SizeModels(ms)
    case One(m, _) => 1 + (if m.Some? then Size(m.value) else 1)
  }

  ghost function SizeModels(ms: seq<Entity>): (r: nat)
    decreases ms
  {
    if ms == [] then 0 else SizeModels(ms[..|ms| - 1]) + Size(ms[|ms| - 1])
  }

  lemma {:induction false} SizeRelsBound(rels: seq<Loaded>, i: nat)
    requires i < |rels|
    ensures SizeRel(rels[i].value) <= SizeRels(rels)
    decreases rels
  {
    if i < |rels| - 1 {
      SizeRelsBound(rels[..|rels| - 1], i);
    }
  }

  lemma {:induction false} SizeModelsBound(ms: seq<Entity>, j: nat)
    requires j < |ms|
    ensures Size(ms[j]) <= SizeModels(ms)
    decreases ms
  {
    if j < |ms| - 1 {
      SizeModelsBound(ms[..|ms| - 1], j);
    }
  }

  // ---- The document, as a specification ----

  /** `formatResource`: the header fields, then what the relation processing built. */
  function Format(e: Entity, name: string, link: Option<string>): (r: Resource)
    decreases Size(e), 1
  {
    var d := RelationsData(e.relations);
    Resource(name, KeyString(e.key), e.attributes, SelfLink(link), d.relationships, d.includes)
  }

  /** `processRelations` over `rels`: every relation but `pivot`, in order. */
  function RelationsData(rels: seq<Loaded>): (r: Data)
    decreases SizeRels(rels), 3
  {
    if rels == [] then Data([], [])
    else
      var d := RelationsData(rels[..|rels| - 1]);
      var last := rels[|rels| - 1];
      if last.name == Pivot then d else RelationStep(d, last.name, last.value)
  }

  /** One relation's contribution: `processCollection` or `processModel`. */
  function RelationStep(d: Data, key: string, v: Relation): (r: Data)
    decreases SizeRel(v), 2
  {
    match v
    case Many(ms) => Data(d.relationships + [(key, ToMany(ModelsIds(ms)))], d.includes + ModelsIncludes(ms))
    case One(m, related) =>
      var t := Target(m, related);
      if t.morph == Pivot then Data(d.relationships + [(key, ToOne(None))], d.includes)
      else Data(d.relationships + [(key, ToOne(Some(FormatRelation(t, t.morph))))],
                d.includes + [Format(t, t.morph, None)])
  }

  /** `formatRelation`. */
  function FormatRelation(m: Entity, name: string): (r: Identifier)
  {
    Identifier(name, m.key)
  }

  /** The identifiers a collection contributes: one per model whose morph class is not `pivot`. */
  function ModelsIds(ms: seq<Entity>): (r: seq<Identifier>)
  {
    if ms == [] then []
    else
      var last := ms[|ms| - 1];
      ModelsIds(ms[..|ms| - 1]) + (if last.morph == Pivot then [] else [FormatRelation(last, last.morph)])
  }

  /** The includes a collection contributes, in the same order. */
  function ModelsIncludes(ms: seq<Entity>): (r: seq<Resource>)
    decreases SizeModels(ms), 2
  {
    if ms == [] then []
    else
      var last := ms[|ms| - 1];
      ModelsIncludes(ms[..|ms| - 1]) + (if last.morph == Pivot then [] else [Format(last, last.morph, None)])
  }

  // ---- The document, built the way the class builds it ----

  /** `toArray`: the resource's own model, under its morph class, linked to the request URL. */
  method ToArray(e: Entity, fullUrl: string) returns (r: Resource)
    ensures r == Format(e, e.morph, Some(fullUrl))
  {
    r := FormatResource(e, e.morph, Some(fullUrl));
  }

  method FormatResource(e: Entity, name: string, link: Option<string>) returns (r: Resource)
    ensures r == Format(e, name, link)
    decreases Size(e), 1
  {
    var self := None;
    if link.Some? && TruthyString(link.value) {
      self := link;
    }
    var d := ProcessRelations(e);
    r := Resource(name, KeyString(e.key), e.attributes, self, d.relationships, d.includes);
  }

  method ProcessRelations(e: Entity) returns (data: Data)
    ensures data == RelationsData(e.relations)
    decreases SizeRels(e.relations), 3
  {
    var rels := e.relations;
    data := Data([], []);
    var i := 0;
    while i < |rels|
      invariant 0 <= i <= |rels|
      invariant data == RelationsData(rels[..i])
    {
      var entry := rels[i];
      assert rels[..i + 1][..i] == rels[..i];
      SizeRelsBound(rels, i);
      if entry.name != Pivot {
        match entry.value
        case Many(ms) =>
          data := ProcessCollection(data, entry.name, ms);
        case One(m, related) =>
          data := ProcessModel(data, entry.name, m, related);
      }
      i := i + 1;
    }
    assert rels[..i] == rels;
  }

  method ProcessCollection(data: Data, key: string, ms: seq<Entity>) returns (out: Data)
    ensures out == RelationStep(data, key, Many(ms))
    decreases SizeModels(ms), 2
  {
    out := data.(relationships := data.relationships + [(key, ToMany([]))]);
    var at := |data.relationships|;
    var j := 0;
    while j < |ms|
      invariant 0 <= j <= |ms|
      invariant out == Data(data.relationships + [(key, ToMany(ModelsIds(ms[..j])))], data.includes + ModelsIncludes(ms[..j]))
    {
      var model := ms[j];
      assert ms[..j + 1][..j] == ms[..j] && ms[..j + 1][j] == model;
      SizeModelsBound(ms, j);
      var name := model.morph;
      if name != Pivot {
        var ids := out.relationships[at].1.data;
        assert ids == ModelsIds(ms[..j]);
        out := out.(relationships := out.relationships[at := (key, ToMany(ids + [FormatRelation(model, name)]))]);
        assert out.relationships == data.relationships + [(key, ToMany(ModelsIds(ms[..j + 1])))];
        var formatted := FormatResource(model, name, None);
        out := out.(includes := out.includes + [formatted]);
        assert out.includes == data.includes + ModelsIncludes(ms[..j + 1]);
      } else {
        assert ModelsIds(ms[..j + 1]) == ModelsIds(ms[..j]);
        assert ModelsIncludes(ms[..j + 1]) == ModelsIncludes(ms[..j]);
      }
      j := j + 1;
    }
    assert ms[..j] == ms;
  }

  method ProcessModel(data: Data, key: string, m: Option<Entity>, related: string) returns (out: Data)
    ensures out == RelationStep(data, key, One(m, related))
    decreases SizeRel(One(m, related)), 2
  {
    out := data.(relationships := data.relationships + [(key, ToOne(None))]);
    var relation := Target(m, related);
    var name := relation.morph;
    if name != Pivot {
      var at := |data.relationships|;
      out := out.(relationships := out.relationships[at := (key, ToOne(Some(FormatRelation(relation, name))))]);
      var formatted := FormatResource(relation, name, None);
      out := out.(includes := out.includes + [formatted]);
    }
  }
}
