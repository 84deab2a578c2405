/**
  The resolver on a small document model: books with an owning-side
  reference to their author, an embedded address and an embedded
  contributor; authors with an owning-side reference to their country and
  an inverse-side reference to their books.
 */
module PropertyHelperExamples {
  import opened PhpStrings
  import opened Odm
  import opened PropertyHelper

  const BookClass := MongoDbOdmMetadata(map[
    "title" := Field,
    "author" := Reference("Author", Owning),
    "address" := Embed("Address"),
    "coauthor" := Embed("Contributor"),
    "legacy" := Embed("Archive")])

  const AuthorClass := MongoDbOdmMetadata(map[
    "name" := Field,
    "country" := Reference("Country", Owning),
    "books" := Reference("Book", Inverse("author"))])

  const ContributorClass := MongoDbOdmMetadata(map["author" := Reference("Author", Owning)])

  /** `getClassMetadata` for the example model; the archive class is not a MongoDB ODM document. */
  function Library(resourceClass: string): ClassMetadata {
    if resourceClass == "Book" then BookClass
    else if resourceClass == "Author" then AuthorClass
    else if resourceClass == "Contributor" then ContributorClass
    else if resourceClass == "Address" then MongoDbOdmMetadata(map["city" := Field])
    else if resourceClass == "Country" then MongoDbOdmMetadata(map["code" := Field])
    else OtherMetadata
  }

  /** `author.name` on a book: one lookup of the author on `author = _id`, one unwind. */
  lemma OwningReferenceExample()
    ensures Locatable(Library, Start("author.name", "Book"), ["author"])
    ensures Resolve(Library, "author.name", "Book", PropertyParts(["author"], "name"))
            == Resolved("author_lkup.name", "name", ["author"])
    ensures Emitted(Library, "author.name", "Book", PropertyParts(["author"], "name"))
            == [Lookup("Author", "author", "_id", "author_lkup"), Unwind("$author_lkup")]
  {
    var s0 := Start("author.name", "Book");
    assert OccursAt(s0.property, "author", 0);
    StrPosIsFirstOccurrence(s0.property, "author", 0);
    OwningReferenceStrings();
    var s1 := Step(Library("Book"), s0, "author");
    assert s1.property == SubstrReplace(s0.property, "author" + LookupSuffix, 0, 6);
    assert s1 == WalkState("author_lkup.", "author_lkup.name", "Author",
                           [Lookup("Author", "author", "_id", "author_lkup"), Unwind("$author_lkup")]);
    assert Walk(Library, s0, ["author"]) == Walk(Library, s1, []);
  }

  /** The literal strings the `author.name` trace concatenates. */
  lemma OwningReferenceStrings()
    ensures "" + "author" == "author" && "author" + LookupSuffix == "author_lkup"
    ensures "" + "author_lkup" == "author_lkup" && "author_lkup" + "." == "author_lkup."
    ensures "$" + "author_lkup" == "$author_lkup"
    ensures SubstrReplace("author.name", "author_lkup", 0, 6) == "author_lkup.name"
  {
  }

  /** `books.title` on an author: the inverse side joins on `_id = author`. */
  lemma InverseReferenceExample()
    ensures Locatable(Library, Start("books.title", "Author"), ["books"])
    ensures Resolve(Library, "books.title", "Author", PropertyParts(["books"], "title"))
            == Resolved("books_lkup.title", "title", ["books"])
    ensures Emitted(Library, "books.title", "Author", PropertyParts(["books"], "title"))
            == [Lookup("Book", "_id", "author", "books_lkup"), Unwind("$books_lkup")]
  {
    var s0 := Start("books.title", "Author");
    assert OccursAt(s0.property, "books", 0);
    StrPosIsFirstOccurrence(s0.property, "books", 0);
    InverseReferenceStrings();
    var s1 := Step(Library("Author"), s0, "books");
    assert s1.property == SubstrReplace(s0.property, "books" + LookupSuffix, 0, 5);
    assert s1 == WalkState("books_lkup.", "books_lkup.title", "Book",
                           [Lookup("Book", "_id", "author", "books_lkup"), Unwind("$books_lkup")]);
    assert Walk(Library, s0, ["books"]) == Walk(Library, s1, []);
  }

  /** The literal strings the `books.title` trace concatenates. */
  lemma InverseReferenceStrings()
    ensures "books" + LookupSuffix == "books_lkup"
    ensures "" + "books_lkup" == "books_lkup" && "books_lkup" + "." == "books_lkup."
    ensures "$" + "books_lkup" == "$books_lkup"
    ensures SubstrReplace("books.title", "books_lkup", 0, 5) == "books_lkup.title"
  {
  }

  /** `address.city` on a book: an embed emits nothing and leaves the path as it is. */
  lemma EmbedExample()
    ensures Locatable(Library, Start("address.city", "Book"), ["address"])
    ensures Walk(Library, Start("address.city", "Book"), ["address"]).alias == "address."
    ensures Resolve(Library, "address.city", "Book", PropertyParts(["address"], "city"))
            == Resolved("address.city", "city", ["address"])
    ensures Emitted(Library, "address.city", "Book", PropertyParts(["address"], "city")) == []
  {
    var s0 := Start("address.city", "Book");
    var s1 := Step(Library("Book"), s0, "address");
    assert s1 == WalkState("address" + ".", "address.city", "Address", []);
    assert Walk(Library, s0, ["address"]) == Walk(Library, s1, []);
  }

  /** `author.country.code` on a book: the second lookup joins from the first one's alias. */
  lemma ChainedReferencesExample()
    ensures Locatable(Library, Start("author.country.code", "Book"), ["author", "country"])
    ensures Walk(Library, Start("author.country.code", "Book"), ["author", "country"]).alias
            == "author_lkup.country_lkup."
    ensures Resolve(Library, "author.country.code", "Book", PropertyParts(["author", "country"], "code"))
            == Resolved("author_lkup.country_lkup.code", "code", ["author", "country"])
    ensures Emitted(Library, "author.country.code", "Book", PropertyParts(["author", "country"], "code"))
            == [Lookup("Author", "author", "_id", "author_lkup"), Unwind("$author_lkup"),
                Lookup("Country", "author_lkup.country", "_id", "author_lkup.country_lkup"),
                Unwind("$author_lkup.country_lkup")]
  {
    var s0 := Start("author.country.code", "Book");
    var s1 := ChainedFirstStep();
    var s2 := ChainedSecondStep(s1);
    assert ["author", "country"][1..] == ["country"] && ["country"][1..] == [];
    assert Locatable(Library, s1, ["country"]);
    assert Locatable(Library, s0, ["author", "country"]);
    assert Walk(Library, s1, ["country"]) == s2;
    assert Walk(Library, s0, ["author", "country"]) == s2;
  }

  lemma ChainedFirstStep() returns (s1: WalkState)
    ensures Findable(Library("Book"), "author.country.code", "author")
    ensures s1 == Step(Library("Book"), Start("author.country.code", "Book"), "author")
    ensures s1 == WalkState("author_lkup.", "author_lkup.country.code", "Author",
                            [Lookup("Author", "author", "_id", "author_lkup"), Unwind("$author_lkup")])
  {
    var s0 := Start("author.country.code", "Book");
    var md := Library("Book");
    assert md.mappings["author"] == Reference("Author", Owning);
    AuthorAtStart(s0.property);
    OwningReferenceStrings();
    ReferenceStepAt(md, s0, "author", 0);
    s1 := Step(md, s0, "author");
  }

  /** Where `author` is found in `author.country.code`, and the path it rewrites to. */
  lemma AuthorAtStart(p: string)
    requires p == "author.country.code"
    ensures StrPos(p, "author") == Some(0)
    ensures SubstrReplace(p, "author_lkup", 0, 6) == "author_lkup.country.code"
  {
    assert OccursAt(p, "author", 0);
    StrPosIsFirstOccurrence(p, "author", 0);
  }

  lemma ChainedSecondStep(s1: WalkState) returns (s2: WalkState)
    requires s1 == WalkState("author_lkup.", "author_lkup.country.code", "Author",
                             [Lookup("Author", "author", "_id", "author_lkup"), Unwind("$author_lkup")])
    ensures Findable(Library("Author"), s1.property, "country")
    ensures s2 == Step(Library("Author"), s1, "country")
    ensures s2 == WalkState("author_lkup.country_lkup.", "author_lkup.country_lkup.code", "Country",
                            s1.stages + [Lookup("Country", "author_lkup.country", "_id", "author_lkup.country_lkup"),
                                         Unwind("$author_lkup.country_lkup")])
  {
    var md := Library("Author");
    assert md == AuthorClass;
    assert md.mappings["country"] == Reference("Country", Owning);
    CountryOccurrence(s1.property);
    ChainedSecondStrings();
    ReferenceStepAt(md, s1, "country", 12);
    s2 := Step(md, s1, "country");
  }

  /** `country` is first found at offset 12 of `author_lkup.country.code`. */
  lemma CountryOccurrence(p: string)
    requires p == "author_lkup.country.code"
    ensures StrPos(p, "country") == Some(12)
  {
    assert p[12..19] == "country";
    forall j: nat | j < 12 ensures !OccursAt(p, "country", j) {
      assert p[j + 6] != "country"[6];
    }
    StrPosIsFirstOccurrence(p, "country", 12);
  }

  /** The literal strings the second step of `author.country.code` concatenates. */
  lemma ChainedSecondStrings()
    ensures "country" + LookupSuffix == "country_lkup"
    ensures "author_lkup." + "country" == "author_lkup.country"
    ensures "author_lkup." + "country_lkup" == "author_lkup.country_lkup"
    ensures "author_lkup.country_lkup" + "." == "author_lkup.country_lkup."
    ensures "$" + "author_lkup.country_lkup" == "$author_lkup.country_lkup"
    ensures SubstrReplace("author_lkup.country.code", "country_lkup", 12, 7) == "author_lkup.country_lkup.code"
  {
  }

  /** `title.x` on a book: a plain segment is not nested, and nothing is emitted. */
  lemma PlainFieldExample()
    ensures Locatable(Library, Start("title.x", "Book"), ["title"])
    ensures Resolve(Library, "title.x", "Book", PropertyParts(["title"], "x")) == NotNested("title.x")
    ensures Emitted(Library, "title.x", "Book", PropertyParts(["title"], "x")) == []
  {
    var s0 := Start("title.x", "Book");
    assert Step(Library("Book"), s0, "title") == s0;
    assert Walk(Library, s0, ["title"]) == Walk(Library, s0, []);
  }

  /**
    `legacy.author.name` on a book: the archive class has no MongoDB ODM
    metadata, so the walk ends there and only the embed was seen.
   */
  lemma OtherMetadataExample()
    ensures Locatable(Library, Start("legacy.author.name", "Book"), ["legacy", "author"])
    ensures Resolve(Library, "legacy.author.name", "Book", PropertyParts(["legacy", "author"], "name"))
            == Resolved("legacy.author.name", "name", ["legacy", "author"])
    ensures Emitted(Library, "legacy.author.name", "Book", PropertyParts(["legacy", "author"], "name")) == []
  {
    var s0 := Start("legacy.author.name", "Book");
    var s1 := Step(Library("Book"), s0, "legacy");
    assert s1 == WalkState("legacy" + ".", "legacy.author.name", "Archive", []);
    assert Library("Archive") == OtherMetadata;
    assert ["legacy", "author"][1..] == ["author"];
    assert Walk(Library, s0, ["legacy", "author"]) == Walk(Library, s1, ["author"]) == s1;
  }

  /** A path on a class without MongoDB ODM metadata is never nested. */
  lemma OtherMetadataFirstExample()
    ensures Locatable(Library, Start("author.name", "Archive"), ["author"])
    ensures Resolve(Library, "author.name", "Archive", PropertyParts(["author"], "name")) == NotNested("author.name")
  {
    assert Library("Archive") == OtherMetadata;
  }

  /**
    `coauthor.author.name` on a book: the path is rewritten at the first
    occurrence of `author`, which lies inside `coauthor`, so the rewritten
    path names `coauthor_lkup` while the lookup's output is
    `coauthor.author_lkup`.
   */
  lemma FirstOccurrenceCollisionExample()
    ensures Locatable(Library, Start("coauthor.author.name", "Book"), ["coauthor", "author"])
    ensures Resolve(Library, "coauthor.author.name", "Book", PropertyParts(["coauthor", "author"], "name"))
            == Resolved("coauthor_lkup.author.name", "name", ["coauthor", "author"])
    ensures Emitted(Library, "coauthor.author.name", "Book", PropertyParts(["coauthor", "author"], "name"))
            == [Lookup("Author", "coauthor.author", "_id", "coauthor.author_lkup"), Unwind("$coauthor.author_lkup")]
  {
    var s0 := Start("coauthor.author.name", "Book");
    var s1 := Step(Library("Book"), s0, "coauthor");
    assert "coauthor" + "." == "coauthor.";
    assert s1 == WalkState("coauthor.", "coauthor.author.name", "Contributor", []);
    var s2 := CollisionSecondStep(s1);
    assert ["coauthor", "author"][1..] == ["author"];
    assert Walk(Library, s0, ["coauthor", "author"]) == Walk(Library, s1, ["author"]) == Walk(Library, s2, []);
  }

  lemma CollisionSecondStep(s1: WalkState) returns (s2: WalkState)
    requires s1 == WalkState("coauthor.", "coauthor.author.name", "Contributor", [])
    ensures Findable(Library("Contributor"), s1.property, "author")
    ensures s2 == Step(Library("Contributor"), s1, "author")
    ensures s2 == WalkState("coauthor.author_lkup.", "coauthor_lkup.author.name", "Author",
                            [Lookup("Author", "coauthor.author", "_id", "coauthor.author_lkup"),
                             Unwind("$coauthor.author_lkup")])
  {
    var md := Library("Contributor");
    assert md == ContributorClass;
    assert md.mappings["author"] == Reference("Author", Owning);
    CollisionOccurrence(s1.property);
    CollisionStrings();
    CollisionRewrite();
    ReferenceStepAt(md, s1, "author", 2);
    s2 := Step(md, s1, "author");
  }

  /** `author` is first found at offset 2 of `coauthor.author.name`, inside `coauthor`. */
  lemma CollisionOccurrence(p: string)
    requires p == "coauthor.author.name"
    ensures StrPos(p, "author") == Some(2)
  {
    assert p[2..8] == "author";
    forall j: nat | j < 2 ensures !OccursAt(p, "author", j) {
      assert p[j] != "author"[0];
    }
    StrPosIsFirstOccurrence(p, "author", 2);
  }

  /** The path `coauthor.author.name` rewritten at that offset. */
  lemma CollisionRewrite()
    ensures SubstrReplace("coauthor.author.name", "author_lkup", 2, 6) == "coauthor_lkup.author.name"
  {
    var p := "coauthor.author.name";
    assert p[..2] == "co" && p[8..] == ".author.name";
  }

  /** The literal strings the second step of `coauthor.author.name` concatenates. */
  lemma CollisionStrings()
    ensures "author" + LookupSuffix == "author_lkup"
    ensures "coauthor." + "author" == "coauthor.author"
    ensures "coauthor." + "author_lkup" == "coauthor.author_lkup"
    ensures "coauthor.author_lkup" + "." == "coauthor.author_lkup."
    ensures "$" + "coauthor.author_lkup" == "$coauthor.author_lkup"
  {
  }

  /** A reference step whose segment is first found at `at`, spelled out. */
  lemma ReferenceStepAt(md: ClassMetadata, s: WalkState, association: string, at: nat)
    requires md.MongoDbOdmMetadata? && md.HasReference(association)
    requires StrPos(s.property, association) == Some(at)
    ensures Step(md, s, association)
            == WalkState(s.alias + association + LookupSuffix + ".",
                         SubstrReplace(s.property, association + LookupSuffix, at, |association|),
                         md.mappings[association].target,
                         s.stages + [ReferenceLookup(md, s.alias, association),
                                     Unwind("$" + (s.alias + association + LookupSuffix))])
  {
  }

  /** A caller that hands the resolver a fresh builder. */
  method ChainedReferencesClient() {
    var builder := new AggregationBuilder();
    ChainedReferencesExample();
    var r := AddLookupsForNestedProperty("author.country.code", builder, "Book",
                                         (p, c) => PropertyParts(["author", "country"], "code"), Library);
    assert r == Resolved("author_lkup.country_lkup.code", "code", ["author", "country"]);
    assert |builder.stages| == 4 && builder.stages[2].localField == "author_lkup.country";
  }
}
