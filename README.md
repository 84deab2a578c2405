# Nested-property lookups for MongoDB ODM

This project models `PropertyHelperTrait::addLookupsForNestedProperty`, the
API Platform helper behind the Doctrine MongoDB ODM filters. It turns a
dotted property path such as `author.country.code` into aggregation stages
and a rewritten path. The path arrives already split into association
segments (`author`, `country`) and a final field (`code`). The resolver
walks the segments, looking each one up in the metadata of the current
resource class:

- **Reference:** appends a `$lookup` of the target class into
  `<alias><segment>_lkup`, followed by an `$unwind` of that alias. It then
  rewrites the first occurrence of the segment in the path to
  `<segment>_lkup`, moves on to the target class and extends the alias
  with `.`.
- **Embed:** overwrites the alias with `<segment>.` and moves on to the
  embedded class.
- **Plain field:** does nothing.
- **Metadata that is not MongoDB ODM metadata:** ends the walk.

If the alias is still empty at the end, the property is not nested and the
resolver fails. Otherwise it returns the rewritten path, the field and the
segments.

The project has four modules:

- `PhpStrings` (`PhpStrings.dfy`) models PHP's `strpos` and `substr_replace`
  as the resolver uses them.
- `Odm` (`Odm.dfy`) models what the resolver sees of Doctrine:
  - class metadata, reduced to the field mappings of a class (field,
    reference with its owning or inverse side, embed), or "some other kind
    of metadata";
  - the aggregation builder, a class whose stage sequence is only ever
    appended to.
- `PropertyHelper` (`PropertyHelper.dfy`) holds the resolver:
  - `AddLookupsForNestedProperty` is the method with the `foreach` loop.
    `ResolveSegment` is that loop's body.
  - The method is proved against `Walk`, a function that folds `Step` over
    the segments.
  - `Visits` is an independent account of how each reached segment is
    classified. The lemmas relate the walk's stages, alias and path to it.
  - The trait's two abstract collaborators are parameters of the method:
    `splitPropertyParts` and `getClassMetadata`.
- `PropertyHelperExamples` (`Examples.dfy`) states and proves what the
  resolver returns and emits on a small book/author/country model. It
  covers owning-side and inverse-side joins, chained references, embeds,
  plain fields, non-ODM metadata, and the first-occurrence rewrite.

## Model

| member | source | states |
|---|---|---|
| PropertyHelper.AddLookupsForNestedProperty | src/Bridge/Doctrine/MongoDbOdm/PropertyHelperTrait.php:49-90 | The result is `Resolve` of the split parts, and the builder ends with its old stages followed by exactly the stages `Walk` emits; the loop invariant keeps the builder, alias, path and class in step with the walk |
| PropertyHelper.ResolveSegment | src/Bridge/Doctrine/MongoDbOdm/PropertyHelperTrait.php:61-82 | One segment past the metadata check leaves the alias, path and class `Step` gives, and the builder gains exactly the stages `Step` adds |
| PropertyHelper.StepEffect | src/Bridge/Doctrine/MongoDbOdm/PropertyHelperTrait.php:61-82 | A reference appends one lookup and then one unwind of `previousAlias + segment + "_lkup"`. It sets the alias to that plus `.`, moves to the target class and rewrites the path. An embed overwrites the alias with `segment + "."`, moves to the target class and keeps the path and stages. A plain field changes nothing |
| PropertyHelper.ReferenceLookup | src/Bridge/Doctrine/MongoDbOdm/PropertyHelperTrait.php:62-72 | The lookup reads the target class into `alias + segment + "_lkup"`. An owning side joins `alias + segment` to `_id`. An inverse side joins `_id` to `mappedBy` |
| PropertyHelper.RewritePath | src/Bridge/Doctrine/MongoDbOdm/PropertyHelperTrait.php:76 | At the first occurrence of the segment, the path gains `_lkup` after the segment. The text before and after is unchanged and the length grows by exactly 5 |
| PhpStrings.StrPos | src/Bridge/Doctrine/MongoDbOdm/PropertyHelperTrait.php:76 | `strpos` returns an index where the needle occurs with no earlier occurrence. It returns nothing exactly when the needle occurs nowhere |
| PhpStrings.StrPosIsFirstOccurrence | src/Bridge/Doctrine/MongoDbOdm/PropertyHelperTrait.php:76 | Any first occurrence is the one `strpos` returns |
| PhpStrings.SubstrReplace | src/Bridge/Doctrine/MongoDbOdm/PropertyHelperTrait.php:76 | `substr_replace` keeps the prefix before `start`, inserts the replacement and keeps the rest after `start + length`. The length changes accordingly |
| Odm.AggregationBuilder.Lookup | src/Bridge/Doctrine/MongoDbOdm/PropertyHelperTrait.php:69-72 | The builder gains one lookup stage with the given target, local field, foreign field and alias, appended after the existing stages |
| Odm.AggregationBuilder.Unwind | src/Bridge/Doctrine/MongoDbOdm/PropertyHelperTrait.php:73 | The builder gains one unwind stage, appended after the existing stages |
| PropertyHelper.Visits | src/Bridge/Doctrine/MongoDbOdm/PropertyHelperTrait.php:54-59 | The reached segments form a prefix of the segments, in order, cut at the first class without MongoDB ODM metadata |
| PropertyHelper.AliasEmptyIffUnnested | src/Bridge/Doctrine/MongoDbOdm/PropertyHelperTrait.php:52-85 | After the walk the alias is empty if and only if it started empty and no reached segment was a reference or an embed |
| PropertyHelper.UnnestedWalkIsIdle | src/Bridge/Doctrine/MongoDbOdm/PropertyHelperTrait.php:61-82 | A walk that meets only plain fields changes neither the stages, the alias, the path nor the class |
| PropertyHelper.StagesFollowReferences | src/Bridge/Doctrine/MongoDbOdm/PropertyHelperTrait.php:61-82 | The walk keeps the earlier stages and appends `2 * (number of reached references)` stages. For each reference, in traversal order, it appends a lookup of that reference's target, shaped by its side and aliased `..._lkup`, immediately followed by the unwind of that alias. Embeds and plain fields append nothing |
| PropertyHelper.PathGrowsPerReference | src/Bridge/Doctrine/MongoDbOdm/PropertyHelperTrait.php:76-82 | The path grows by exactly 5 characters per reached reference. Embeds and plain fields leave its length alone |
| PropertyHelper.BreakIgnoresLaterSegments | src/Bridge/Doctrine/MongoDbOdm/PropertyHelperTrait.php:55-59 | A walk that stops early stopped at a class without MongoDB ODM metadata. Appending further segments changes neither the visits nor the final state (stages, alias, path, class) |
| PropertyHelper.ResolveOutcome | src/Bridge/Doctrine/MongoDbOdm/PropertyHelperTrait.php:51-89 | The resolver fails exactly when no reached segment is a reference or an embed, and then reports the path unchanged. On success it returns the splitter's field and segments unmodified, and a path 5 characters longer per reference |
| PropertyHelper.EmittedStages | src/Bridge/Doctrine/MongoDbOdm/PropertyHelperTrait.php:61-86 | The emitted stages are exactly one lookup/unwind pair per reached reference, in order. When the resolver fails nothing is emitted |
| PropertyHelperExamples.OwningReferenceExample | src/Bridge/Doctrine/MongoDbOdm/PropertyHelperTrait.php:61-78 | `author.name` on a book resolves to `author_lkup.name`. It emits a lookup of `Author` on `author = _id` into `author_lkup`, then `$author_lkup` is unwound |
| PropertyHelperExamples.InverseReferenceExample | src/Bridge/Doctrine/MongoDbOdm/PropertyHelperTrait.php:67-73 | `books.title` on an author joins inverse-side on `_id = author` into `books_lkup` |
| PropertyHelperExamples.EmbedExample | src/Bridge/Doctrine/MongoDbOdm/PropertyHelperTrait.php:79-81 | `address.city` on a book sets the alias to `address.` and emits nothing. The path is kept |
| PropertyHelperExamples.ChainedReferencesExample | src/Bridge/Doctrine/MongoDbOdm/PropertyHelperTrait.php:62-78 | For `author.country.code` the second lookup joins from `author_lkup.country` into `author_lkup.country_lkup`. The path becomes `author_lkup.country_lkup.code` |
| PropertyHelperExamples.PlainFieldExample | src/Bridge/Doctrine/MongoDbOdm/PropertyHelperTrait.php:85-86 | A path made of a plain field is not nested, and nothing is emitted |
| PropertyHelperExamples.OtherMetadataExample | src/Bridge/Doctrine/MongoDbOdm/PropertyHelperTrait.php:55-59 | The walk ends at a class without MongoDB ODM metadata. The reference segment after it is ignored |
| PropertyHelperExamples.OtherMetadataFirstExample | src/Bridge/Doctrine/MongoDbOdm/PropertyHelperTrait.php:55-59 | A break on the very first segment makes the path not nested |
| PropertyHelperExamples.FirstOccurrenceCollisionExample | src/Bridge/Doctrine/MongoDbOdm/PropertyHelperTrait.php:76 | For `coauthor.author.name`, `strpos` finds `author` inside `coauthor`. The path becomes `coauthor_lkup.author.name`, while the lookup's alias is `coauthor.author_lkup` |

## Left out

- Doctrine's metadata loading and its real metadata classes are not modelled. `getClassMetadata` is a total function parameter from class names to the mapping view above.
- How `splitPropertyParts` splits a path is not modelled. It is a function parameter, and its result is taken as given.
- Doctrine's aggregation `Builder` and MongoDB's execution of `$lookup`/`$unwind` are not modelled. The builder is only its appended stage sequence. The fluent `localField`/`foreignField`/`alias` calls are one `Lookup` call.
- The exception class and its `sprintf` message are not modelled. Failure is the `NotNested` result, carrying the path the message would show.
- PropertyHelper.AddLookupsForNestedProperty requires `Locatable`: each reference segment the walk reaches must occur in the path as it stands at that point. When `strpos` returns false at line 76, the file declares `strict_types=1`, so PHP 7 turns `false` into offset 0 and PHP 8 raises a `TypeError`. That path is not modelled.
- `Side` assumes a reference is inverse exactly when its mapping names `mappedBy`. A reference that is inverse only through `repositoryMethod` has no `mappedBy` for line 71 to read, and is not modelled.
- PhpStrings.StrPos finds an empty needle at offset 0, as PHP 8 does. PHP 7 returns false there.
- Strings are sequences of characters. PHP works on bytes, and no encoding is modelled.
- Calling the resolver twice on the same arguments yields the same result, because it is a function of its inputs. No separate lemma states this.
