/**
  The nested-property lookup resolver of the MongoDB ODM bridge
  (`PropertyHelperTrait::addLookupsForNestedProperty`).

  A dotted property path such as `author.address.city` arrives already split
  into its association segments and its final field. The resolver walks the
  segments against the class metadata: a reference appends a `$lookup` and an
  `$unwind` stage to the aggregation builder and rewrites the path to use the
  lookup's output, an embed resets the alias prefix, a plain field does
  nothing, and metadata that is not MongoDB ODM metadata ends the walk. A
  path that never met a reference or an embed is not nested, and is refused.

  `Walk` is the specification of the loop, one `Step` per segment;
  `Visits` is an independent account of how each reached segment is
  classified, and the lemmas tie the walk's stages, alias and path to it.
 */
module PropertyHelper {
  import opened PhpStrings
  import opened Odm

  /** What `splitPropertyParts` returns for a path. */
  datatype PropertyParts = PropertyParts(associations: seq<string>, field: string)

  /** The returned triple, or the "property is not nested" error. */
  datatype Resolution =
    | Resolved(property: string, field: string, associations: seq<string>)
    | NotNested(property: string)

  /**
    The loop's state after some segments: the alias prefix, the (rewritten)
    property path, the current resource class, and the stages appended so far.
   */
  datatype WalkState = WalkState(alias: string, property: string, resourceClass: string, stages: seq<Stage>)

  const LookupSuffix := "_lkup"
  const IdField := "_id"

  function Start(property: string, resourceClass: string): (s: WalkState) {
    WalkState("", property, resourceClass, [])
  }

  /** A reference segment can be located in the path (`strpos` does not return false). */
  predicate Findable(md: ClassMetadata, property: string, association: string)
    requires md.MongoDbOdmMetadata?
  {
    md.HasReference(association) ==> StrPos(property, association).Some?
  }

  /**
    The path with the lookup suffix inserted right after the first place
    the segment's name appears in it.
   */
  function RewritePath(property: string, association: string): (r: string)
    requires StrPos(property, association).Some?
    ensures var at := StrPos(property, association).value;
            && |r| == |property| + |LookupSuffix|
            && r[..at] == property[..at]
            && r[at..at + |association| + |LookupSuffix|] == association + LookupSuffix
            && r[at + |association| + |LookupSuffix|..] == property[at + |association|..]
  {
    SubstrReplace(property, association + LookupSuffix, StrPos(property, association).value, |association|)
  }

  /**
    The lookup stage for reference segment `association` reached under
    `alias`: it joins the target class into `alias + association_lkup`, on
    `alias + association = _id` from the owning side and on `_id = mappedBy`
    from the inverse side.
   */
  function ReferenceLookup(md: ClassMetadata, alias: string, association: string): (lookup: Stage)
    requires md.MongoDbOdmMetadata? && md.HasReference(association)
    ensures lookup.Lookup? && lookup.alias == alias + association + LookupSuffix
    ensures lookup.from == md.AssociationTargetClass(association)
    ensures md.IsOwningSide(association) ==>
              lookup.localField == alias + association && lookup.foreignField == IdField
    ensures !md.IsOwningSide(association) ==>
              lookup.localField == IdField && lookup.foreignField == md.mappings[association].side.mappedBy
  {
    var propertyAlias := association + LookupSuffix;
    var localField := alias + association;
    var owning := md.IsOwningSide(association);
    Lookup(md.AssociationTargetClass(association),
           if owning then localField else IdField,
           if owning then IdField else md.mappings[association].side.mappedBy,
           alias + propertyAlias)
  }

  /** One iteration of the loop, for a segment whose class has MongoDB ODM metadata. */
  function Step(md: ClassMetadata, s: WalkState, association: string): (t: WalkState)
    requires md.MongoDbOdmMetadata? && Findable(md, s.property, association)
  {
    if md.HasReference(association) then
      var lookup := ReferenceLookup(md, s.alias, association);
      var stages := s.stages + [lookup, Unwind("$" + lookup.alias)];
      assert stages[..|s.stages|] == s.stages;
      WalkState(lookup.alias + ".", RewritePath(s.property, association),
                md.AssociationTargetClass(association), stages)
    else if md.HasEmbed(association) then
      s.(alias := association + ".", resourceClass := md.AssociationTargetClass(association))
    else
      s
  }

  /** What one iteration does, by how the metadata classifies the segment. */
  lemma StepEffect(md: ClassMetadata, s: WalkState, association: string)
    requires md.MongoDbOdmMetadata? && Findable(md, s.property, association)
    // a reference: one lookup into `previous alias + association_lkup`, then its unwind
    ensures var t := Step(md, s, association);
            md.HasReference(association) ==>
      var lookupAs := s.alias + association + LookupSuffix;
      var n := |s.stages|;
      && |t.stages| == n + 2 && t.stages[..n] == s.stages
      && t.stages[n].Lookup? && t.stages[n].alias == lookupAs
      && t.stages[n].from == md.AssociationTargetClass(association)
      && (md.IsOwningSide(association) ==>
            t.stages[n].localField == s.alias + association && t.stages[n].foreignField == IdField)
      && (!md.IsOwningSide(association) ==>
            t.stages[n].localField == IdField
            && t.stages[n].foreignField == md.mappings[association].side.mappedBy)
      && t.stages[n + 1] == Unwind("$" + lookupAs)
      && t.alias == lookupAs + "."
      && t.resourceClass == md.AssociationTargetClass(association)
    // a reference: the path is rewritten at the segment's first occurrence
    ensures var t := Step(md, s, association);
            md.HasReference(association) ==> t.property == RewritePath(s.property, association)
    // an embed: the alias is overwritten, not extended; path and stages stay
    ensures var t := Step(md, s, association);
            md.HasEmbed(association) ==>
      && t.alias == association + "."
      && t.property == s.property && t.stages == s.stages
      && t.resourceClass == md.AssociationTargetClass(association)
    // a plain field: nothing changes
    ensures var t := Step(md, s, association);
            !md.HasReference(association) && !md.HasEmbed(association) ==> t == s
  {
  }

  /**
    Every reference segment the walk reaches is present in the path as it
    stands when that segment is processed.
   */
  predicate Locatable(getClassMetadata: string -> ClassMetadata, s: WalkState, associations: seq<string>)
    decreases |associations|
  {
    if associations == [] then true
    else
      var md := getClassMetadata(s.resourceClass);
      !md.MongoDbOdmMetadata? ||
      (Findable(md, s.property, associations[0]) &&
       Locatable(getClassMetadata, Step(md, s, associations[0]), associations[1..]))
  }

  /** The loop over the segments, stopping at the first class without MongoDB ODM metadata. */
  function Walk(getClassMetadata: string -> ClassMetadata, s: WalkState, associations: seq<string>): (w: WalkState)
    requires Locatable(getClassMetadata, s, associations)
    decreases |associations|
  {
    if associations == [] then s
    else
      var md := getClassMetadata(s.resourceClass);
      if !md.MongoDbOdmMetadata? then s
      else Walk(getClassMetadata, Step(md, s, associations[0]), associations[1..])
  }

  /** How one segment is classified by the metadata of the class it is reached in. */
  datatype Visit =
    | ReferenceVisit(name: string, target: string, side: Side)
    | EmbedVisit(name: string, target: string)
    | FieldVisit(name: string)

  function Classify(md: ClassMetadata, association: string): (v: Visit)
    requires md.MongoDbOdmMetadata?
  {
    if md.HasReference(association) then
      ReferenceVisit(association, md.mappings[association].target, md.mappings[association].side)
    else if md.HasEmbed(association) then
      EmbedVisit(association, md.mappings[association].target)
    else
      FieldVisit(association)
  }

  /** The class the next segment is looked up in. */
  function NextClass(v: Visit, resourceClass: string): (next: string) {
    if v.FieldVisit? then resourceClass else v.target
  }

  /**
    The classification of every segment the walk reaches, in order: a prefix
    of the segments, cut at the first class without MongoDB ODM metadata.
   */
  function Visits(getClassMetadata: string -> ClassMetadata, resourceClass: string, associations: seq<string>): (vs: seq<Visit>)
    ensures |vs| <= |associations|
    ensures forall i :: 0 <= i < |vs| ==> vs[i].name == associations[i]
    decreases |associations|
  {
    if associations == [] || !getClassMetadata(resourceClass).MongoDbOdmMetadata? then []
    else
      var v := Classify(getClassMetadata(resourceClass), associations[0]);
      [v] + Visits(getClassMetadata, NextClass(v, resourceClass), associations[1..])
  }

  /** The reference visits, in order. */
  function References(vs: seq<Visit>): (refs: seq<Visit>)
    ensures |refs| <= |vs|
    ensures forall v :: v in refs ==> v in vs && v.ReferenceVisit?
    ensures (forall v :: v in vs ==> !v.ReferenceVisit?) ==> refs == []
  {
    if vs == [] then []
    else (if vs[0].ReferenceVisit? then [vs[0]] else []) + References(vs[1..])
  }

  /** No reached segment is a reference or an embed. */
  predicate Unnested(vs: seq<Visit>) {
    forall v :: v in vs ==> v.FieldVisit?
  }

  predicate EndsWith(s: string, suffix: string) {
    |suffix| <= |s| && s[|s| - |suffix|..] == suffix
  }

  /**
    The stage pair one reference segment contributes: a lookup of its target
    class into an alias ending in `<segment>_lkup`, joined owning-side on
    `<alias prefix><segment> = _id` or inverse-side on `_id = mappedBy`,
    followed by the unwind of that same alias.
   */
  predicate EmitsLookup(v: Visit, lookup: Stage, unwind: Stage) {
    && v.ReferenceVisit?
    && lookup.Lookup?
    && lookup.from == v.target
    && EndsWith(lookup.alias, v.name + LookupSuffix)
    && unwind == Unwind("$" + lookup.alias)
    && match v.side
       case Owning =>
         lookup.foreignField == IdField && lookup.alias == lookup.localField + LookupSuffix
       case Inverse(mappedBy) =>
         lookup.localField == IdField && lookup.foreignField == mappedBy
  }

  /** One step of the walk classifies its segment as `Visits` does and moves on to the same class. */
  lemma VisitsUnfold(getClassMetadata: string -> ClassMetadata, s: WalkState, associations: seq<string>)
    requires associations != [] && getClassMetadata(s.resourceClass).MongoDbOdmMetadata?
    requires Findable(getClassMetadata(s.resourceClass), s.property, associations[0])
    ensures var md := getClassMetadata(s.resourceClass);
            var v := Classify(md, associations[0]);
            && Step(md, s, associations[0]).resourceClass == NextClass(v, s.resourceClass)
            && Visits(getClassMetadata, s.resourceClass, associations)
               == [v] + Visits(getClassMetadata, NextClass(v, s.resourceClass), associations[1..])
  {
  }

  /**
    The alias is empty after the walk exactly when it was empty before and
    no reached segment was a reference or an embed.
   */
  lemma {:induction false} AliasEmptyIffUnnested(getClassMetadata: string -> ClassMetadata, s: WalkState, associations: seq<string>)
    requires Locatable(getClassMetadata, s, associations)
    ensures Walk(getClassMetadata, s, associations).alias == ""
            <==> s.alias == "" && Unnested(Visits(getClassMetadata, s.resourceClass, associations))
    decreases |associations|
  {
    if associations != [] && getClassMetadata(s.resourceClass).MongoDbOdmMetadata? {
      var md := getClassMetadata(s.resourceClass);
      var t := Step(md, s, associations[0]);
      VisitsUnfold(getClassMetadata, s, associations);
      AliasEmptyIffUnnested(getClassMetadata, t, associations[1..]);
      var v := Classify(md, associations[0]);
      var rest := Visits(getClassMetadata, t.resourceClass, associations[1..]);
      assert Unnested([v] + rest) <==> v.FieldVisit? && Unnested(rest) by {
        assert forall x :: x in [v] + rest <==> x == v || x in rest;
      }
      assert t.alias == "" <==> s.alias == "" && v.FieldVisit? by {
        if md.HasReference(associations[0]) {
          assert |t.alias| > 0;
        } else if md.HasEmbed(associations[0]) {
          assert |t.alias| > 0;
        }
      }
    }
  }

  /** A walk over plain fields only changes nothing at all. */
  lemma {:induction false} UnnestedWalkIsIdle(getClassMetadata: string -> ClassMetadata, s: WalkState, associations: seq<string>)
    requires Locatable(getClassMetadata, s, associations)
    ensures Unnested(Visits(getClassMetadata, s.resourceClass, associations)) ==> Walk(getClassMetadata, s, associations) == s
    decreases |associations|
  {
    if associations != [] && getClassMetadata(s.resourceClass).MongoDbOdmMetadata?
       && Unnested(Visits(getClassMetadata, s.resourceClass, associations)) {
      var md := getClassMetadata(s.resourceClass);
      VisitsUnfold(getClassMetadata, s, associations);
      var v := Classify(md, associations[0]);
      assert v in Visits(getClassMetadata, s.resourceClass, associations);
      var rest := Visits(getClassMetadata, s.resourceClass, associations[1..]);
      assert forall x :: x in rest ==> x in [v] + rest;
      UnnestedWalkIsIdle(getClassMetadata, s, associations[1..]);
    }
  }

  /**
    `stages` holds, from index `n` on, exactly one lookup/unwind pair per
    reference visit of `refs`, in order.
   */
  predicate PairsFrom(refs: seq<Visit>, stages: seq<Stage>, n: nat) {
    && |stages| == n + 2 * |refs|
    && forall j :: 0 <= j < |refs| ==> EmitsLookup(refs[j], stages[n + 2 * j], stages[n + 2 * j + 1])
  }

  lemma PairsFromCons(v: Visit, refs: seq<Visit>, stages: seq<Stage>, n: nat)
    requires n + 1 < |stages| && EmitsLookup(v, stages[n], stages[n + 1])
    requires PairsFrom(refs, stages, n + 2)
    ensures PairsFrom([v] + refs, stages, n)
  {
    forall j | 0 <= j < |[v] + refs|
      ensures EmitsLookup(([v] + refs)[j], stages[n + 2 * j], stages[n + 2 * j + 1])
    {
      if j > 0 {
        assert ([v] + refs)[j] == refs[j - 1];
        assert n + 2 * j == (n + 2) + 2 * (j - 1);
      }
    }
  }

  /** A stage pair in front of the pairs that follow it. */
  lemma PairPrepended(v: Visit, refs: seq<Visit>, before: seq<Stage>, middle: seq<Stage>, after: seq<Stage>)
    requires |middle| == |before| + 2 && middle[..|before|] == before
    requires EmitsLookup(v, middle[|before|], middle[|before| + 1])
    requires PairsFrom(refs, after, |middle|) && after[..|middle|] == middle
    ensures PairsFrom([v] + refs, after, |before|) && after[..|before|] == before
  {
    var n := |before|;
    assert after[..n] == after[..n + 2][..n];
    assert after[n] == middle[n] && after[n + 1] == middle[n + 1];
    PairsFromCons(v, refs, after, n);
  }

  /** The stage pair a reference step appends is the one its segment calls for. */
  lemma ReferenceStepEmits(md: ClassMetadata, s: WalkState, association: string)
    requires md.MongoDbOdmMetadata? && Findable(md, s.property, association)
    requires md.HasReference(association)
    ensures var t := Step(md, s, association);
            var n := |s.stages|;
            && |t.stages| == n + 2 && t.stages[..n] == s.stages
            && EmitsLookup(Classify(md, association), t.stages[n], t.stages[n + 1])
  {
    var t := Step(md, s, association);
    var n := |s.stages|;
    var lookupAs := s.alias + association + LookupSuffix;
    assert t.stages[n].alias == lookupAs;
    assert lookupAs[|lookupAs| - |association + LookupSuffix|..] == association + LookupSuffix;
  }

  /**
    The walk only appends, and appends exactly one lookup/unwind pair per
    reached reference segment, in traversal order, shaped by that segment.
   */
  lemma {:induction false} StagesFollowReferences(getClassMetadata: string -> ClassMetadata, s: WalkState, associations: seq<string>)
    requires Locatable(getClassMetadata, s, associations)
    ensures var w := Walk(getClassMetadata, s, associations);
            && PairsFrom(References(Visits(getClassMetadata, s.resourceClass, associations)), w.stages, |s.stages|)
            && w.stages[..|s.stages|] == s.stages
    decreases |associations|
  {
    if associations != [] && getClassMetadata(s.resourceClass).MongoDbOdmMetadata? {
      var md := getClassMetadata(s.resourceClass);
      var a := associations[0];
      var t := Step(md, s, a);
      VisitsUnfold(getClassMetadata, s, associations);
      StagesFollowReferences(getClassMetadata, t, associations[1..]);
      var w := Walk(getClassMetadata, s, associations);
      var v := Classify(md, a);
      var restVisits := Visits(getClassMetadata, t.resourceClass, associations[1..]);
      assert ([v] + restVisits)[1..] == restVisits;
      var n := |s.stages|;
      if md.HasReference(a) {
        assert References([v] + restVisits) == [v] + References(restVisits);
        ReferenceStepEmits(md, s, a);
        PairPrepended(v, References(restVisits), s.stages, t.stages, w.stages);
      } else {
        assert References([v] + restVisits) == References(restVisits);
      }
    }
  }

  /** Each reference segment lengthens the path by `_lkup`; nothing else changes its length. */
  lemma {:induction false} PathGrowsPerReference(getClassMetadata: string -> ClassMetadata, s: WalkState, associations: seq<string>)
    requires Locatable(getClassMetadata, s, associations)
    ensures |Walk(getClassMetadata, s, associations).property|
            == |s.property| + |LookupSuffix| * |References(Visits(getClassMetadata, s.resourceClass, associations))|
    decreases |associations|
  {
    if associations != [] && getClassMetadata(s.resourceClass).MongoDbOdmMetadata? {
      var md := getClassMetadata(s.resourceClass);
      var t := Step(md, s, associations[0]);
      VisitsUnfold(getClassMetadata, s, associations);
      PathGrowsPerReference(getClassMetadata, t, associations[1..]);
      var v := Classify(md, associations[0]);
      var restVisits := Visits(getClassMetadata, t.resourceClass, associations[1..]);
      assert ([v] + restVisits)[1..] == restVisits;
    }
  }

  /**
    When the walk stops early, it stopped at a class without MongoDB ODM
    metadata, and whatever segments follow have no effect on it.
   */
  lemma {:induction false} BreakIgnoresLaterSegments(getClassMetadata: string -> ClassMetadata, s: WalkState, associations: seq<string>, later: seq<string>)
    requires Locatable(getClassMetadata, s, associations)
    requires |Visits(getClassMetadata, s.resourceClass, associations)| < |associations|
    ensures !getClassMetadata(Walk(getClassMetadata, s, associations).resourceClass).MongoDbOdmMetadata?
    ensures Visits(getClassMetadata, s.resourceClass, associations + later)
            == Visits(getClassMetadata, s.resourceClass, associations)
    ensures Locatable(getClassMetadata, s, associations + later)
    ensures Walk(getClassMetadata, s, associations + later) == Walk(getClassMetadata, s, associations)
    decreases |associations|
  {
    var all := associations + later;
    assert all[0] == associations[0] && all[1..] == associations[1..] + later;
    var md := getClassMetadata(s.resourceClass);
    if md.MongoDbOdmMetadata? {
      var t := Step(md, s, associations[0]);
      VisitsUnfold(getClassMetadata, s, associations);
      VisitsUnfold(getClassMetadata, s, all);
      BreakIgnoresLaterSegments(getClassMetadata, t, associations[1..], later);
      assert Walk(getClassMetadata, s, all) == Walk(getClassMetadata, t, all[1..]);
      assert Walk(getClassMetadata, s, associations) == Walk(getClassMetadata, t, associations[1..]);
    } else {
      assert Visits(getClassMetadata, s.resourceClass, all) == [];
      assert Walk(getClassMetadata, s, all) == s;
    }
  }

  /** The result of the resolver, in terms of the walk from an empty alias. */
  function Resolve(getClassMetadata: string -> ClassMetadata, property: string, resourceClass: string, parts: PropertyParts): (r: Resolution)
    requires Locatable(getClassMetadata, Start(property, resourceClass), parts.associations)
  {
    var w := Walk(getClassMetadata, Start(property, resourceClass), parts.associations);
    if w.alias == "" then NotNested(w.property)
    else Resolved(w.property, parts.field, parts.associations)
  }

  /** The stages the resolver appends to the builder. */
  function Emitted(getClassMetadata: string -> ClassMetadata, property: string, resourceClass: string, parts: PropertyParts): (stages: seq<Stage>)
    requires Locatable(getClassMetadata, Start(property, resourceClass), parts.associations)
  {
    Walk(getClassMetadata, Start(property, resourceClass), parts.associations).stages
  }

  /**
    The resolver fails exactly when no reached segment is a reference or an
    embed, and then reports the path unchanged. On success it returns the
    splitter's field and associations as they were, and a path lengthened by
    `_lkup` once per reference segment.
   */
  lemma ResolveOutcome(getClassMetadata: string -> ClassMetadata, property: string, resourceClass: string, parts: PropertyParts)
    requires Locatable(getClassMetadata, Start(property, resourceClass), parts.associations)
    ensures var r := Resolve(getClassMetadata, property, resourceClass, parts);
            var visits := Visits(getClassMetadata, resourceClass, parts.associations);
            && (r.NotNested? <==> Unnested(visits))
            && (r.NotNested? ==> r.property == property)
            && (r.Resolved? ==> r.field == parts.field && r.associations == parts.associations)
            && (r.Resolved? ==> |r.property| == |property| + |LookupSuffix| * |References(visits)|)
  {
    var s := Start(property, resourceClass);
    AliasEmptyIffUnnested(getClassMetadata, s, parts.associations);
    PathGrowsPerReference(getClassMetadata, s, parts.associations);
    UnnestedWalkIsIdle(getClassMetadata, s, parts.associations);
  }

  /**
    The resolver appends a lookup/unwind pair per reference segment reached,
    in order, and nothing at all when the path is not nested.
   */
  lemma EmittedStages(getClassMetadata: string -> ClassMetadata, property: string, resourceClass: string, parts: PropertyParts)
    requires Locatable(getClassMetadata, Start(property, resourceClass), parts.associations)
    ensures var stages := Emitted(getClassMetadata, property, resourceClass, parts);
            var visits := Visits(getClassMetadata, resourceClass, parts.associations);
            && PairsFrom(References(visits), stages, 0)
            && (Unnested(visits) ==> stages == [])
  {
    var s := Start(property, resourceClass);
    StagesFollowReferences(getClassMetadata, s, parts.associations);
    UnnestedWalkIsIdle(getClassMetadata, s, parts.associations);
  }

  /** Walking from segment `i` on is one step, then the walk from segment `i + 1` on. */
  lemma WalkAdvance(getClassMetadata: string -> ClassMetadata, s: WalkState, associations: seq<string>, i: nat,
                    md: ClassMetadata, association: string)
    requires i < |associations| && association == associations[i]
    requires md == getClassMetadata(s.resourceClass) && md.MongoDbOdmMetadata?
    requires Locatable(getClassMetadata, s, associations[i..])
    ensures Findable(md, s.property, association)
    ensures Locatable(getClassMetadata, Step(md, s, association), associations[i + 1..])
    ensures Walk(getClassMetadata, s, associations[i..])
            == Walk(getClassMetadata, Step(md, s, association), associations[i + 1..])
  {
    assert associations[i..][0] == associations[i] && associations[i..][1..] == associations[i + 1..];
  }

  /**
    One pass of the loop body past the metadata check: a reference appends a
    `$lookup` and an `$unwind` stage and moves the path and alias onto the
    joined document, an embed moves the alias onto the embedded document, and
    any other segment changes nothing. The new path, alias and class are
    those `Step` gives, and the builder gains exactly the stages `Step` adds.
   */
  method ResolveSegment(
    aggregationBuilder: AggregationBuilder,
    classMetadata: ClassMetadata,
    alias: string,
    property: string,
    resourceClass: string,
    association: string,
    ghost initial: seq<Stage>,
    ghost state: WalkState
  ) returns (newAlias: string, newProperty: string, newResourceClass: string)
    requires classMetadata.MongoDbOdmMetadata?
    requires state == WalkState(alias, property, resourceClass, state.stages)
    requires Findable(classMetadata, property, association)
    requires aggregationBuilder.stages == initial + state.stages
    modifies aggregationBuilder
    ensures Step(classMetadata, state, association)
            == WalkState(newAlias, newProperty, newResourceClass, Step(classMetadata, state, association).stages)
    ensures aggregationBuilder.stages == initial + Step(classMetadata, state, association).stages
  {
    newAlias, newProperty, newResourceClass := alias, property, resourceClass;
    if classMetadata.HasReference(association) {
      var propertyAlias := association + LookupSuffix;
      var localField := alias + association;
      newAlias := alias + propertyAlias;
      var owning := classMetadata.IsOwningSide(association);
      var localKey := if owning then localField else IdField;
      var foreignKey := if owning then IdField else classMetadata.mappings[association].side.mappedBy;

      aggregationBuilder.Lookup(classMetadata.AssociationTargetClass(association), localKey, foreignKey, newAlias);
      aggregationBuilder.Unwind("$" + newAlias);
      assert Lookup(classMetadata.AssociationTargetClass(association), localKey, foreignKey, newAlias)
             == ReferenceLookup(classMetadata, alias, association);

      var at := StrPos(property, association).value;
      newProperty := SubstrReplace(property, propertyAlias, at, |association|);
      newResourceClass := classMetadata.AssociationTargetClass(association);
      newAlias := newAlias + ".";
    } else if classMetadata.HasEmbed(association) {
      newAlias := association + ".";
      newResourceClass := classMetadata.AssociationTargetClass(association);
    }
  }

  /**
    `addLookupsForNestedProperty($property, $aggregationBuilder, $resourceClass)`,
    with the trait's abstract `splitPropertyParts` and `getClassMetadata`
    passed in.
   */
  method AddLookupsForNestedProperty(
    property: string,
    aggregationBuilder: AggregationBuilder,
    resourceClass: string,
    splitPropertyParts: (string, string) -> PropertyParts,
    getClassMetadata: string -> ClassMetadata
  ) returns (r: Resolution)
    requires Locatable(getClassMetadata, Start(property, resourceClass), splitPropertyParts(property, resourceClass).associations)
    modifies aggregationBuilder
    ensures r == Resolve(getClassMetadata, property, resourceClass, splitPropertyParts(property, resourceClass))
    ensures aggregationBuilder.stages
            == old(aggregationBuilder.stages) + Emitted(getClassMetadata, property, resourceClass, splitPropertyParts(property, resourceClass))
  {
    var propertyParts := splitPropertyParts(property, resourceClass);
    var associations := propertyParts.associations;
    var alias := "";
    var currentProperty := property;
    var currentClass := resourceClass;
    ghost var initial := aggregationBuilder.stages;
    ghost var start := Start(property, resourceClass);
    ghost var state := start;

    var i := 0;
    while i < |associations|
      invariant 0 <= i <= |associations|
      invariant state == WalkState(alias, currentProperty, currentClass, state.stages)
      invariant aggregationBuilder.stages == initial + state.stages
      invariant Locatable(getClassMetadata, state, associations[i..])
      invariant Walk(getClassMetadata, state, associations[i..]) == Walk(getClassMetadata, start, associations)
    {
      var association := associations[i];
      var classMetadata := getClassMetadata(currentClass);

      if !classMetadata.MongoDbOdmMetadata? {
        assert Walk(getClassMetadata, state, associations[i..]) == state;
        break;
      }
      WalkAdvance(getClassMetadata, state, associations, i, classMetadata, association);
      alias, currentProperty, currentClass :=
        ResolveSegment(aggregationBuilder, classMetadata, alias, currentProperty, currentClass, association, initial, state);
      state := Step(classMetadata, state, association);
      i := i + 1;
    }
    assert Walk(getClassMetadata, state, associations[i..]) == state;

    if alias == "" {
      r := NotNested(currentProperty);
    } else {
      r := Resolved(currentProperty, propertyParts.field, propertyParts.associations);
    }
  }
}
