/**
 * What the formatted document promises a client: the header identifies the
 * model, relation names given once each appear once each and never as `pivot`, and every
 * identifier in a linkage is matched, in the same position, by a formatted
 * include of the same model.
 */
module ItemResourceProperties {
  import opened Wrappers
  import opened ItemResource

  /** The names of the relations that are serialised: all but `pivot`, in load order. */
  function ServedNames(rels: seq<Loaded>): (r: seq<string>)
  {
    if rels == [] then []
    else ServedNames(rels[..|rels| - 1]) + (if rels[|rels| - 1].name == Pivot then [] else [rels[|rels| - 1].name])
  }

  /** The keys of a `relationships` object, in order. */
  function Keys(rels: seq<(string, Linkage)>): (r: seq<string>)
  {
    if rels == [] then [] else Keys(rels[..|rels| - 1]) + [rels[|rels| - 1].0]
  }

  /** The models of a collection that are serialised: those whose morph class is not `pivot`. */
  function Served(ms: seq<Entity>): (r: seq<Entity>)
  {
    if ms == [] then []
    else Served(ms[..|ms| - 1]) + (if ms[|ms| - 1].morph == Pivot then [] else [ms[|ms| - 1]])
  }

  /**
   * The header: `type` is the name asked for, `id` is the key in decimal
   * (reading back as the key, and empty exactly when there is no key), the
   * attributes are the model's, and `links.self` is there exactly when the
   * link is truthy.
   */
  lemma FormatHeader(e: Entity, name: string, link: Option<string>)
    ensures Format(e, name, link).kind == name
    ensures Format(e, name, link).attributes == e.attributes
    ensures Format(e, name, link).id == "" <==> e.key.None?
    ensures forall i :: 0 <= i < |Format(e, name, link).id| ==> '0' <= Format(e, name, link).id[i] <= '9'
    ensures e.key.Some? ==> ParseDigits(Format(e, name, link).id) == e.key.value
    ensures Format(e, name, link).selfLink.Some? <==> link.Some? && TruthyString(link.value)
  {
    KeyStringRoundTrip(e.key);
  }

  lemma {:induction false} KeysAppend(rels: seq<(string, Linkage)>, key: string, l: Linkage)
    ensures Keys(rels + [(key, l)]) == Keys(rels) + [key]
  {
    assert (rels + [(key, l)])[..|rels|] == rels;
  }

  /** A relation's step adds exactly one key, the relation's name. */
  lemma RelationStepAddsKey(d: Data, key: string, v: Relation)
    ensures Keys(RelationStep(d, key, v).relationships) == Keys(d.relationships) + [key]
  {
    match v
    case Many(ms) =>
      KeysAppend(d.relationships, key, ToMany(ModelsIds(ms)));
    case One(m, related) =>
      var t := Target(m, related);
      if t.morph == Pivot {
        KeysAppend(d.relationships, key, ToOne(None));
      } else {
        KeysAppend(d.relationships, key, ToOne(Some(FormatRelation(t, t.morph))));
      }
  }

  /** `relationships` has one entry per loaded relation except `pivot`, in load order. */
  lemma {:induction false} RelationshipKeys(rels: seq<Loaded>)
    ensures Keys(RelationsData(rels).relationships) == ServedNames(rels)
  {
    if rels != [] {
      var init := rels[..|rels| - 1];
      RelationshipKeys(init);
      var last := rels[|rels| - 1];
      if last.name != Pivot {
        RelationStepAddsKey(RelationsData(init), last.name, last.value);
      }
    }
  }

  /** No relation is ever serialised under the name `pivot`. */
  lemma {:induction false} PivotNeverServed(rels: seq<Loaded>)
    ensures Pivot !in Keys(RelationsData(rels).relationships)
  {
    RelationshipKeys(rels);
    ServedNamesOmitPivot(rels);
  }

  lemma {:induction false} ServedNamesOmitPivot(rels: seq<Loaded>)
    ensures Pivot !in ServedNames(rels)
  {
    if rels != [] {
      ServedNamesOmitPivot(rels[..|rels| - 1]);
    }
  }

  /**
   * A collection contributes, for each model whose morph class is not
   * `pivot` and in collection order, one identifier of that model and one
   * include formatting that model without a link.
   */
  lemma {:induction false} CollectionServesEachModel(ms: seq<Entity>)
    ensures |ModelsIds(ms)| == |ModelsIncludes(ms)| == |Served(ms)|
    ensures forall i :: 0 <= i < |Served(ms)| ==>
      ModelsIds(ms)[i] == Identifier(Served(ms)[i].morph, Served(ms)[i].key)
      && ModelsIncludes(ms)[i] == Format(Served(ms)[i], Served(ms)[i].morph, None)
  {
    if ms != [] {
      CollectionServesEachModel(ms[..|ms| - 1]);
    }
  }

  /**
   * Linkage and includes agree: the i-th identifier of a collection names
   * the type and, once stringified, the id of the i-th include.
   */
  lemma LinkageMatchesIncludes(ms: seq<Entity>)
    ensures |ModelsIds(ms)| == |ModelsIncludes(ms)|
    ensures forall i :: 0 <= i < |ModelsIds(ms)| ==>
      ModelsIds(ms)[i].kind == ModelsIncludes(ms)[i].kind
      && KeyString(ModelsIds(ms)[i].id) == ModelsIncludes(ms)[i].id
  {
    CollectionServesEachModel(ms);
  }

  /**
   * A single relation that is null is served through a blank instance of
   * the related class: an identifier with a null id and an include with an
   * empty id, no attributes, no link and no relations.
   */
  lemma NullRelationUsesPrototype(d: Data, key: string, related: string)
    requires related != Pivot
    ensures RelationStep(d, key, One(None, related)) ==
      Data(d.relationships + [(key, ToOne(Some(Identifier(related, None))))],
           d.includes + [Resource(related, "", map[], None, [], [])])
  {
    assert RelationsData(Prototype(related).relations) == Data([], []);
  }
}
