/**
  What the resolver sees of Doctrine MongoDB ODM: the class metadata it
  queries and the aggregation builder it appends stages to.
 */
module Odm {

  /**
    Which side of a reference mapping a field is on. The model takes a
    reference to be inverse exactly when its mapping names the field it is
    mapped by, and carries that name.
   */
  datatype Side = Owning | Inverse(mappedBy: string)

  /** How a document class maps one of its fields. */
  datatype FieldMapping =
    | Field
    | Reference(target: string, side: Side)
    | Embed(target: string)

  /**
    The metadata `getClassMetadata` returns for a class: MongoDB ODM metadata
    (its field mappings by name), or metadata of some other kind.
   */
  datatype ClassMetadata =
    | MongoDbOdmMetadata(mappings: map<string, FieldMapping>)
    | OtherMetadata
  {
    /** `hasReference($fieldName)` */
    predicate HasReference(fieldName: string)
      requires MongoDbOdmMetadata?
    {
      fieldName in mappings && mappings[fieldName].Reference?
    }

    /** `hasEmbed($fieldName)` */
    predicate HasEmbed(fieldName: string)
      requires MongoDbOdmMetadata?
    {
      fieldName in mappings && mappings[fieldName].Embed?
    }

    /** `getAssociationTargetClass($assocName)` for a reference or an embed */
    function AssociationTargetClass(assocName: string): string
      requires MongoDbOdmMetadata?
      requires HasReference(assocName) || HasEmbed(assocName)
    {
      mappings[assocName].target
    }

    /** `getFieldMapping($fieldName)['isOwningSide']` for a reference */
    predicate IsOwningSide(fieldName: string)
      requires MongoDbOdmMetadata? && HasReference(fieldName)
    {
      mappings[fieldName].side.Owning?
    }
  }

  /** The two aggregation stages the resolver emits. */
  datatype Stage =
    | Lookup(from: string, localField: string, foreignField: string, alias: string)
    | Unwind(fieldName: string)

  /**
    The aggregation builder the caller passes in. The resolver only ever
    appends to it, so its state is the sequence of stages added so far.
   */
  class AggregationBuilder {
    var stages: seq<Stage>

    constructor ()
      ensures stages == []
    {
      stages := [];
    }

    /** `lookup($from)->localField(...)->foreignField(...)->alias(...)` */
    method Lookup(from: string, localField: string, foreignField: string, alias: string)
      modifies this
      ensures stages == old(stages) + [Stage.Lookup(from, localField, foreignField, alias)]
    {
      stages := stages + [Stage.Lookup(from, localField, foreignField, alias)];
    }

    /** `unwind($fieldName)` */
    method Unwind(fieldName: string)
      modifies this
      ensures stages == old(stages) + [Stage.Unwind(fieldName)]
    {
      stages := stages + [Stage.Unwind(fieldName)];
    }
  }
}
