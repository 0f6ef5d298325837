/**
 * The DataCite XML document (GlobalIdMetadataTemplate.generateXML, generateRelatedIdentifiers
 * and getMetadataFromDvObject).
 *
 * Each block of the document is specified as a list of records (creators, contributors,
 * related identifiers) and a serialisation of that list; the StringBuilder loops of the
 * source are proved to produce exactly that serialisation. The serialisation functions are
 * written as "what the builder holds after appending the entry" (`WithCreator(sb, c)`), which
 * is how the source produces the text.
 */
module DataCiteXml {
  import opened Nullable
  import opened JavaStrings
  import opened GlobalIds
  import opened Objects
  import opened FlatMetadata

  /** A Java String reference that is set and not empty. */
  predicate NonEmpty(s: Option<string>)
  {
    s.Some? && s.value != []
  }

  // ---------------------------------------------------------------------------------------
  // Creators (DataCite property 2)

  datatype NameIdScheme = Orcid | Isni | Lcna

  /** The idType text that selects each scheme. */
  function SchemeName(scheme: NameIdScheme): string
  {
    match scheme
    case Orcid => "ORCID"
    case Isni => "ISNI"
    case Lcna => "LCNA"
  }

  function SchemeOf(idType: string): (r: Option<NameIdScheme>)
    ensures r.Some? <==> idType in {"ORCID", "ISNI", "LCNA"}
    ensures r.Some? ==> SchemeName(r.value) == idType
  {
    if idType == "ORCID" then Some(Orcid)
    else if idType == "ISNI" then Some(Isni)
    else if idType == "LCNA" then Some(Lcna)
    else None
  }

  const OrcidOpenTag: string := "<nameIdentifier schemeURI=\"https://orcid.org/\" nameIdentifierScheme=\"ORCID\">"
  const IsniOpenTag: string := "<nameIdentifier schemeURI=\"http://isni.org/isni/\" nameIdentifierScheme=\"ISNI\">"
  const LcnaOpenTag: string := "<nameIdentifier schemeURI=\"http://id.loc.gov/authorities/names/\" nameIdentifierScheme=\"LCNA\">"

  function NameIdOpenTag(scheme: NameIdScheme): string
  {
    match scheme
    case Orcid => OrcidOpenTag
    case Isni => IsniOpenTag
    case Lcna => LcnaOpenTag
  }

  const NameIdCloseTag: string := "</nameIdentifier>"
  const AffiliationOpenTag: string := "<affiliation>"
  const AffiliationCloseTag: string := "</affiliation>"
  const CreatorOpenTag: string := "<creator><creatorName>"
  const CreatorNameCloseTag: string := "</creatorName>"
  const CreatorCloseTag: string := "</creator>"

  datatype NameIdentifier = NameIdentifier(scheme: NameIdScheme, value: string)

  /** One `<creator>` entry: a name, maybe a name identifier, maybe an affiliation. */
  datatype Creator = Creator(name: string, nameIdentifier: Option<NameIdentifier>, affiliation: Option<string>)

  /** The creator entry generateXML writes for an author. */
  function CreatorOf(a: Author): Creator
  {
    var affiliation := if NonEmpty(a.affiliation) then Some(a.affiliation.value) else None;
    var nameIdentifier :=
      if NonEmpty(a.idType) && NonEmpty(a.idValue) && NonEmpty(a.affiliation) && SchemeOf(a.idType.value).Some?
      then Some(NameIdentifier(SchemeOf(a.idType.value).value, a.idValue.value))
      else None;
    Creator(a.name, nameIdentifier, affiliation)
  }

  /**
   * A creator keeps its name; it has a name identifier exactly when idType, idValue and the
   * affiliation are all set and non-empty and idType is ORCID, ISNI or LCNA (the identifier
   * then carries idValue under that scheme); it has an affiliation exactly when the author's
   * affiliation is set and non-empty. So an identifier never appears without an affiliation.
   */
  lemma CreatorRules(a: Author)
    ensures CreatorOf(a).name == a.name
    ensures CreatorOf(a).nameIdentifier.Some? <==>
              NonEmpty(a.idType) && NonEmpty(a.idValue) && NonEmpty(a.affiliation)
              && a.idType.value in {"ORCID", "ISNI", "LCNA"}
    ensures CreatorOf(a).nameIdentifier.Some? ==>
              && SchemeName(CreatorOf(a).nameIdentifier.value.scheme) == a.idType.value
              && CreatorOf(a).nameIdentifier.value.value == a.idValue.value
    ensures CreatorOf(a).affiliation.Some? <==> NonEmpty(a.affiliation)
    ensures CreatorOf(a).affiliation.Some? ==> CreatorOf(a).affiliation.value == a.affiliation.value
    ensures CreatorOf(a).nameIdentifier.Some? ==> CreatorOf(a).affiliation.Some?
  {
  }

  /** An ORCID author with an affiliation gets both elements; without one, neither. */
  lemma OrcidNeedsAffiliation(name: string)
    ensures CreatorOf(Author(name, Some("ORCID"), Some("0000-1111"), Some("Acme")))
            == Creator(name, Some(NameIdentifier(Orcid, "0000-1111")), Some("Acme"))
    ensures CreatorOf(Author(name, Some("ORCID"), Some("0000-1111"), Some("")))
            == Creator(name, None, None)
  {
  }

  /** The builder after appending an optional affiliation element. */
  function WithAffiliation(sb: string, affiliation: Option<string>): string
  {
    match affiliation
    case None => sb
    case Some(text) => sb + AffiliationOpenTag + text + AffiliationCloseTag
  }

  /** The builder after appending an optional name-identifier element. */
  function WithNameIdentifier(sb: string, n: Option<NameIdentifier>): string
  {
    match n
    case None => sb
    case Some(id) => sb + NameIdOpenTag(id.scheme) + id.value + NameIdCloseTag
  }

  /** The builder after appending one creator element. */
  function WithCreator(sb: string, c: Creator): string
  {
    WithAffiliation(WithNameIdentifier(sb + CreatorOpenTag + c.name + CreatorNameCloseTag, c.nameIdentifier),
                    c.affiliation)
      + CreatorCloseTag
  }

  /**
   * The `${creators}` block: one creator element per author, in order; the block for all
   * but the last author is kept in front.
   */
  function CreatorsXml(authors: seq<Author>): (r: string)
    ensures authors != [] ==>
              var before := CreatorsXml(authors[..|authors| - 1]);
              |r| > |before| && r[..|before|] == before
  {
    if authors == [] then ""
    else
      var before := CreatorsXml(authors[..|authors| - 1]);
      WithCreatorExtends(before, CreatorOf(authors[|authors| - 1]));
      WithCreator(before, CreatorOf(authors[|authors| - 1]))
  }

  /** Appending a creator element keeps what the builder held. */
  lemma WithCreatorExtends(sb: string, c: Creator)
    ensures |WithCreator(sb, c)| > |sb| && WithCreator(sb, c)[..|sb|] == sb
  {
    var named := sb + CreatorOpenTag + c.name + CreatorNameCloseTag;
    assert named[..|sb|] == sb;
    var withId := WithNameIdentifier(named, c.nameIdentifier);
    assert withId[..|named|] == named;
    var withAffiliation := WithAffiliation(withId, c.affiliation);
    assert withAffiliation[..|withId|] == withId;
    assert WithCreator(sb, c)[..|withAffiliation|] == withAffiliation;
  }

  /** The name-identifier part of one iteration of the creators loop. */
  method AppendNameIdentifier(sb: string, author: Author) returns (r: string)
    ensures r == WithNameIdentifier(sb, CreatorOf(author).nameIdentifier)
  {
    r := sb;
    if author.idType.Some? && author.idValue.Some? && author.idType.value != [] && author.idValue.value != []
       && author.affiliation.Some? && author.affiliation.value != []
    {
      var idType := author.idType.value;
      ghost var scheme := SchemeOf(idType);
      if idType == "ORCID" {
        assert scheme == Some(Orcid);
        r := r + OrcidOpenTag + author.idValue.value + NameIdCloseTag;
      }
      if idType == "ISNI" {
        assert scheme == Some(Isni);
        r := r + IsniOpenTag + author.idValue.value + NameIdCloseTag;
      }
      if idType == "LCNA" {
        assert scheme == Some(Lcna);
        r := r + LcnaOpenTag + author.idValue.value + NameIdCloseTag;
      }
    }
  }

  /** One iteration of the creators loop: the author's creator entry is appended. */
  method AppendCreator(sb: string, author: Author) returns (r: string)
    ensures r == WithCreator(sb, CreatorOf(author))
  {
    r := sb + CreatorOpenTag + author.name + CreatorNameCloseTag;
    r := AppendNameIdentifier(r, author);
    if author.affiliation.Some? && author.affiliation.value != [] {
      r := r + AffiliationOpenTag + author.affiliation.value + AffiliationCloseTag;
    }
    r := r + CreatorCloseTag;
  }

  /** The creators loop of generateXML. */
  method BuildCreators(authors: seq<Author>) returns (creatorsElement: string)
    ensures creatorsElement == CreatorsXml(authors)
  {
    creatorsElement := "";
    var i := 0;
    while i < |authors|
      invariant 0 <= i <= |authors|
      invariant creatorsElement == CreatorsXml(authors[..i])
    {
      ghost var done := authors[..i + 1];
      assert done[..i] == authors[..i] && done[i] == authors[i];
      creatorsElement := AppendCreator(creatorsElement, authors[i]);
      assert creatorsElement == CreatorsXml(done);
      i := i + 1;
    }
    assert authors[..i] == authors;
  }

  // ---------------------------------------------------------------------------------------
  // Contributors (DataCite property 7)

  datatype ContributorType = ContactPerson | Producer

  /** One `<contributor>` entry. */
  datatype Contributor = Contributor(role: ContributorType, name: string, affiliation: Option<string>)

  const ContactOpenTag: string := "<contributor contributorType=\"ContactPerson\"><contributorName>"
  const ProducerOpenTag: string := "<contributor contributorType=\"Producer\"><contributorName>"
  const ContributorNameCloseTag: string := "</contributorName>"
  const ContributorCloseTag: string := "</contributor>"

  function ContributorOpenTag(role: ContributorType): string
  {
    match role
    case ContactPerson => ContactOpenTag
    case Producer => ProducerOpenTag
  }

  /** A contact or producer row as a contributor: the affiliation only when non-empty. */
  function ContributorOf(role: ContributorType, p: Party): Contributor
  {
    Contributor(role, p.name, if p.affiliation != [] then Some(p.affiliation) else None)
  }

  /** The contact entries: one per contact with a non-empty name, in order. */
  function ContactsOf(contacts: seq<Party>): seq<Contributor>
  {
    if contacts == [] then []
    else
      var last := contacts[|contacts| - 1];
      ContactsOf(contacts[..|contacts| - 1])
        + (if last.name != [] then [ContributorOf(ContactPerson, last)] else [])
  }

  /** The producer entries: one per producer, none skipped. */
  function ProducersOf(producers: seq<Party>): (r: seq<Contributor>)
    ensures |r| == |producers|
    ensures forall i :: 0 <= i < |producers| ==> r[i] == ContributorOf(Producer, producers[i])
  {
    if producers == [] then []
    else ProducersOf(producers[..|producers| - 1]) + [ContributorOf(Producer, producers[|producers| - 1])]
  }

  /**
   * Contacts with an empty name are skipped, all others appear: every entry is a
   * ContactPerson with a non-empty name taken from some contact, every named contact has its
   * entry, and with no unnamed contacts there is one entry per contact.
   */
  lemma {:induction false} ContactsOfRules(contacts: seq<Party>)
    ensures |ContactsOf(contacts)| <= |contacts|
    ensures forall c :: c in ContactsOf(contacts) ==>
              c.role == ContactPerson && c.name != [] && exists p :: p in contacts && c == ContributorOf(ContactPerson, p)
    ensures forall p :: p in contacts && p.name != [] ==> ContributorOf(ContactPerson, p) in ContactsOf(contacts)
    ensures (forall p :: p in contacts ==> p.name != []) ==> |ContactsOf(contacts)| == |contacts|
  {
    if contacts != [] {
      var init := contacts[..|contacts| - 1];
      var last := contacts[|contacts| - 1];
      ContactsOfRules(init);
      assert contacts == init + [last];
      forall p | p in contacts && p.name != []
        ensures ContributorOf(ContactPerson, p) in ContactsOf(contacts)
      {
        if p != last {
          assert p in init;
        }
      }
      forall c | c in ContactsOf(contacts)
        ensures c.role == ContactPerson && c.name != [] && exists p :: p in contacts && c == ContributorOf(ContactPerson, p)
      {
        if c in ContactsOf(init) {
          var p :| p in init && c == ContributorOf(ContactPerson, p);
          assert p in contacts;
        } else {
          assert c == ContributorOf(ContactPerson, last);
        }
      }
      if forall p :: p in contacts ==> p.name != [] {
        assert last in contacts;
        assert forall p :: p in init ==> p in contacts;
      }
    }
  }

  /** The builder after appending one contributor element. */
  function WithContributor(sb: string, c: Contributor): string
  {
    WithAffiliation(sb + ContributorOpenTag(c.role) + c.name + ContributorNameCloseTag, c.affiliation)
      + ContributorCloseTag
  }

  /** The builder after appending the elements of `cs`, in order. */
  function JoinContributors(sb: string, cs: seq<Contributor>): string
  {
    if cs == [] then sb else WithContributor(JoinContributors(sb, cs[..|cs| - 1]), cs[|cs| - 1])
  }

  /** The `{$contributors}` block: the contact elements, then the producer elements. */
  function ContributorsXml(contacts: seq<Party>, producers: seq<Party>): string
  {
    JoinContributors(JoinContributors("", ContactsOf(contacts)), ProducersOf(producers))
  }

  /** The body of both contributor loops: the contact's or producer's entry is appended. */
  method AppendContributor(sb: string, role: ContributorType, p: Party) returns (r: string)
    ensures r == WithContributor(sb, ContributorOf(role, p))
  {
    r := sb + ContributorOpenTag(role) + p.name + ContributorNameCloseTag;
    if p.affiliation != [] {
      r := r + AffiliationOpenTag + p.affiliation + AffiliationCloseTag;
    }
    r := r + ContributorCloseTag;
  }

  /** Appending one more contributor to the list appends its element to the text. */
  lemma JoinContributorsSnoc(sb: string, cs: seq<Contributor>, c: Contributor)
    ensures JoinContributors(sb, cs + [c]) == WithContributor(JoinContributors(sb, cs), c)
  {
    assert (cs + [c])[..|cs|] == cs;
  }

  /** The contact entries of one more contact: its entry is added when it is named. */
  lemma ContactsOfSnoc(contacts: seq<Party>, i: nat)
    requires i < |contacts|
    ensures ContactsOf(contacts[..i + 1])
            == ContactsOf(contacts[..i]) + (if contacts[i].name != [] then [ContributorOf(ContactPerson, contacts[i])] else [])
  {
    assert contacts[..i + 1][..i] == contacts[..i];
  }

  /** The producer entries of one more producer: its entry is always added. */
  lemma ProducersOfSnoc(producers: seq<Party>, i: nat)
    requires i < |producers|
    ensures ProducersOf(producers[..i + 1]) == ProducersOf(producers[..i]) + [ContributorOf(Producer, producers[i])]
  {
    assert producers[..i + 1][..i] == producers[..i];
  }

  /** The contact loop of generateXML: the entries of the named contacts are appended. */
  method AppendContacts(sb: string, contacts: seq<Party>) returns (r: string)
    ensures r == JoinContributors(sb, ContactsOf(contacts))
  {
    r := sb;
    var i := 0;
    while i < |contacts|
      invariant 0 <= i <= |contacts|
      invariant r == JoinContributors(sb, ContactsOf(contacts[..i]))
    {
      var contact := contacts[i];
      ContactsOfSnoc(contacts, i);
      if contact.name != [] {
        JoinContributorsSnoc(sb, ContactsOf(contacts[..i]), ContributorOf(ContactPerson, contact));
        r := AppendContributor(r, ContactPerson, contact);
      } else {
        assert ContactsOf(contacts[..i]) + [] == ContactsOf(contacts[..i]);
      }
      i := i + 1;
    }
    assert contacts[..i] == contacts;
  }

  /** The producer loop of generateXML: every producer's entry is appended. */
  method AppendProducers(sb: string, producers: seq<Party>) returns (r: string)
    ensures r == JoinContributors(sb, ProducersOf(producers))
  {
    r := sb;
    var i := 0;
    while i < |producers|
      invariant 0 <= i <= |producers|
      invariant r == JoinContributors(sb, ProducersOf(producers[..i]))
    {
      ProducersOfSnoc(producers, i);
      JoinContributorsSnoc(sb, ProducersOf(producers[..i]), ContributorOf(Producer, producers[i]));
      r := AppendContributor(r, Producer, producers[i]);
      i := i + 1;
    }
    assert producers[..i] == producers;
  }

  /** The two contributor loops of generateXML: named contacts first, then every producer. */
  method BuildContributors(contacts: seq<Party>, producers: seq<Party>) returns (contributorsElement: string)
    ensures contributorsElement == ContributorsXml(contacts, producers)
  {
    contributorsElement := AppendContacts("", contacts);
    contributorsElement := AppendProducers(contributorsElement, producers);
  }

  // ---------------------------------------------------------------------------------------
  // Related identifiers (DataCite property 12)

  datatype RelationType = HasPart | IsPartOf

  /** One `<relatedIdentifier>` entry: the relation and the related object's global id text. */
  datatype RelatedIdentifier = RelatedIdentifier(relation: RelationType, target: string)

  const HasPartOpenTag: string := "<relatedIdentifier relatedIdentifierType=\"DOI\" relationType=\"HasPart\">"
  const IsPartOfOpenTag: string := "<relatedIdentifier relatedIdentifierType=\"DOI\" relationType=\"IsPartOf\">"
  const RelatedCloseTag: string := "</relatedIdentifier>"
  const RelatedBlockOpenTag: string := "<relatedIdentifiers>"
  const RelatedBlockCloseTag: string := "</relatedIdentifiers>"

  /** The builder after appending one related-identifier element. */
  function WithRelated(sb: string, r: RelatedIdentifier): string
  {
    sb + (match r.relation case HasPart => HasPartOpenTag case IsPartOf => IsPartOfOpenTag)
      + r.target + RelatedCloseTag
  }

  /** The builder after appending the elements of `rs`, in order; what it held is kept in front. */
  function JoinRelated(sb: string, rs: seq<RelatedIdentifier>): (r: string)
    ensures |r| >= |sb| && r[..|sb|] == sb
  {
    if rs == [] then sb
    else
      var before := JoinRelated(sb, rs[..|rs| - 1]);
      WithRelatedExtends(before, rs[|rs| - 1], sb);
      WithRelated(before, rs[|rs| - 1])
  }

  /** Appending a related-identifier element keeps every prefix of what the builder held. */
  lemma WithRelatedExtends(before: string, r: RelatedIdentifier, sb: string)
    requires |sb| <= |before| && before[..|sb|] == sb
    ensures |WithRelated(before, r)| >= |sb| && WithRelated(before, r)[..|sb|] == sb
  {
    assert WithRelated(before, r)[..|before|] == before;
    assert WithRelated(before, r)[..|sb|] == before[..|sb|];
  }

  /** The `${relatedIdentifiers}` block: nothing at all without entries, else the wrapped elements. */
  function RelatedIdentifiersXml(rs: seq<RelatedIdentifier>): string
  {
    if rs == [] then "" else JoinRelated("" + RelatedBlockOpenTag, rs) + RelatedBlockCloseTag
  }

  /** The global id text of each file, in order. */
  function FileGlobalIds(files: seq<DvObject>): (r: seq<string>)
    reads files
    ensures |r| == |files|
    ensures forall i :: 0 <= i < |files| ==> r[i] == GlobalIdText(files[i])
  {
    seq(|files|, i reads files requires 0 <= i < |files| => GlobalIdText(files[i]))
  }

  /** One HasPart entry per non-empty global id text, in order. */
  function HasParts(gids: seq<string>): seq<RelatedIdentifier>
  {
    if gids == [] then []
    else
      var last := gids[|gids| - 1];
      HasParts(gids[..|gids| - 1]) + (if last != [] then [RelatedIdentifier(HasPart, last)] else [])
  }

  /** Whether a dataset lists its files at all: it has files and the first one has an identifier. */
  predicate ListsFiles(dataset: DvObject)
    reads dataset, dataset.files
  {
    dataset.files != [] && dataset.files[0].identifier.Some?
  }

  /**
   * What generateRelatedIdentifiers reads of an object: for a dataset, whether it lists its
   * files and the global id text of each file; for a file, its owner's global id text.
   */
  datatype RelatedSource = DatasetFiles(listed: bool, fileGids: seq<string>) | OwnedFile(ownerGid: string)

  function RelatedSourceOf(obj: DvObject): RelatedSource
    requires obj.dtype == DataFile ==> obj.owner != null
    reads obj, obj.files, obj.owner
  {
    if obj.dtype == Dataset then DatasetFiles(ListsFiles(obj), FileGlobalIds(obj.files))
    else OwnedFile(GlobalIdText(obj.owner))
  }

  /** What generateRelatedIdentifiers reads depends only on the object, its files and its owner. */
  twostate lemma RelatedSourceUnchanged(obj: DvObject)
    requires obj.dtype == DataFile ==> obj.owner != null
    requires unchanged(obj) && (obj.owner != null ==> unchanged(obj.owner)) && unchanged(obj.files)
    ensures RelatedSourceOf(obj) == old(RelatedSourceOf(obj))
  {
  }

  /** The related-identifier entries generateRelatedIdentifiers writes. */
  function RelatedOf(src: RelatedSource): seq<RelatedIdentifier>
  {
    match src
    case DatasetFiles(listed, gids) => if listed then HasParts(gids) else []
    case OwnedFile(gid) => [RelatedIdentifier(IsPartOf, gid)]
  }

  /** One HasPart entry of the file loop: the wrapper first if nothing is written yet, then the element. */
  lemma HasPartWritten(before: string, written: seq<RelatedIdentifier>, entry: RelatedIdentifier, after: string)
    requires entry.relation == HasPart
    requires before == if written == [] then "" else JoinRelated("" + RelatedBlockOpenTag, written)
    requires after == (if before == [] then before + RelatedBlockOpenTag else before)
                      + HasPartOpenTag + entry.target + RelatedCloseTag
    ensures after == JoinRelated("" + RelatedBlockOpenTag, written + [entry])
  {
    JoinRelatedSnoc("" + RelatedBlockOpenTag, written, entry);
    if written != [] {
      assert |before| >= |"" + RelatedBlockOpenTag| > 0;
    }
  }

  /** Appending one more entry to the list appends its element to the text. */
  lemma JoinRelatedSnoc(sb: string, rs: seq<RelatedIdentifier>, r: RelatedIdentifier)
    ensures JoinRelated(sb, rs + [r]) == WithRelated(JoinRelated(sb, rs), r)
  {
    assert (rs + [r])[..|rs|] == rs;
  }

  /** The entries of one more file: its entry is added when its global id is non-empty. */
  lemma HasPartsSnoc(gids: seq<string>, i: nat)
    requires i < |gids|
    ensures HasParts(gids[..i + 1])
            == HasParts(gids[..i]) + (if gids[i] != [] then [RelatedIdentifier(HasPart, gids[i])] else [])
  {
    assert gids[..i + 1][..i] == gids[..i];
  }

  /**
   * The file loop of generateRelatedIdentifiers: the wrapper is opened before the first entry
   * and only then, so the text stays empty while no file has a global id.
   */
  method AppendHasParts(files: seq<DvObject>) returns (sb: string)
    ensures var rs := HasParts(FileGlobalIds(files));
            sb == if rs == [] then "" else JoinRelated("" + RelatedBlockOpenTag, rs)
  {
    ghost var gids := FileGlobalIds(files);
    sb := "";
    ghost var written: seq<RelatedIdentifier> := [];
    var i := 0;
    while i < |files|
      invariant 0 <= i <= |files|
      invariant written == HasParts(gids[..i])
      invariant sb == if written == [] then "" else JoinRelated("" + RelatedBlockOpenTag, written)
    {
      var dataFile := files[i];
      var gid := GlobalIdText(dataFile);
      assert gid == gids[i];
      HasPartsSnoc(gids, i);
      if gid != [] {
        ghost var before := sb;
        if sb == [] {
          sb := sb + RelatedBlockOpenTag;
        }
        var entry := RelatedIdentifier(HasPart, gid);
        sb := sb + HasPartOpenTag + gid + RelatedCloseTag;
        HasPartWritten(before, written, entry, sb);
        written := written + [entry];
      } else {
        assert written + [] == written;
      }
      i := i + 1;
    }
    assert gids[..i] == gids;
  }

  /** A non-empty list is its prefix followed by its last element. */
  lemma SplitLast<T>(s: seq<T>)
    requires s != []
    ensures s == s[..|s| - 1] + [s[|s| - 1]]
  {
  }

  /**
   * Every HasPart entry carries one of the non-empty global ids, and there are at most as
   * many entries as files.
   */
  lemma {:induction false} HasPartsSound(gids: seq<string>)
    ensures |HasParts(gids)| <= |gids|
    ensures forall r :: r in HasParts(gids) ==> r.relation == HasPart && r.target != [] && r.target in gids
  {
    if gids != [] {
      var init := gids[..|gids| - 1];
      HasPartsSound(init);
      SplitLast(gids);
    }
  }

  /** Every non-empty global id has its HasPart entry. */
  lemma {:induction false} HasPartsComplete(gids: seq<string>)
    ensures forall g :: g in gids && g != [] ==> RelatedIdentifier(HasPart, g) in HasParts(gids)
  {
    if gids != [] {
      var init := gids[..|gids| - 1];
      HasPartsComplete(init);
      SplitLast(gids);
    }
  }

  /** When every file has a global id, there is exactly one entry per file, in the files' order. */
  lemma {:induction false} HasPartsOnePerFile(gids: seq<string>)
    requires forall i :: 0 <= i < |gids| ==> gids[i] != []
    ensures |HasParts(gids)| == |gids|
    ensures forall i :: 0 <= i < |gids| ==> HasParts(gids)[i] == RelatedIdentifier(HasPart, gids[i])
  {
    if gids != [] {
      HasPartsOnePerFile(gids[..|gids| - 1]);
    }
  }

  /**
   * A file always yields exactly one IsPartOf entry, to its owner's global id, inside the
   * wrapper element.
   */
  lemma DataFileIsPartOfOwner(obj: DvObject)
    requires obj.dtype == DataFile && obj.owner != null
    ensures RelatedOf(RelatedSourceOf(obj)) == [RelatedIdentifier(IsPartOf, GlobalIdText(obj.owner))]
    ensures RelatedIdentifiersXml(RelatedOf(RelatedSourceOf(obj)))
            == "" + RelatedBlockOpenTag + IsPartOfOpenTag + GlobalIdText(obj.owner) + RelatedCloseTag + RelatedBlockCloseTag
  {
    var r := RelatedIdentifier(IsPartOf, GlobalIdText(obj.owner));
    assert [r][..0] == [];
    assert JoinRelated("" + RelatedBlockOpenTag, [r]) == WithRelated("" + RelatedBlockOpenTag, r);
  }

  /**
   * A dataset whose first file has no identifier, or that has no files, gets no related
   * identifiers at all, whatever its other files hold.
   */
  lemma DatasetWithoutListedFiles(obj: DvObject)
    requires obj.dtype == Dataset && !ListsFiles(obj)
    ensures RelatedIdentifiersXml(RelatedOf(RelatedSourceOf(obj))) == ""
  {
  }

  // ---------------------------------------------------------------------------------------
  // The whole document

  const IdentifierSlot: string := "${identifier}"
  const TitleSlot: string := "${title}"
  const PublisherSlot: string := "${publisher}"
  const PublisherYearSlot: string := "${publisherYear}"
  const DescriptionSlot: string := "${description}"
  const CreatorsSlot: string := "${creators}"
  const RelatedIdentifiersSlot: string := "${relatedIdentifiers}"
  /** Written with the dollar sign after the brace, as the template service does. */
  const ContributorsSlot: string := "{$contributors}"

  /** The year substituted for `${publisherYear}`: 9999 when there is none. */
  function PublicationYearText(year: Option<string>): (r: string)
    ensures year.None? ==> r == SentinelYear
    ensures year.Some? ==> r == year.value
  {
    match year
    case None => SentinelYear
    case Some(y) => y
  }

  /**
   * The template with its placeholders replaced, one after the other, in generateXML's order.
   * Later replacements also act on text that earlier ones inserted.
   */
  function FillTemplate(template: string, identifier: string, title: string, publisher: string,
                        year: Option<string>, description: string,
                        creators: string, related: string, contributors: string): string
  {
    var xml := Replace(template, IdentifierSlot, Trim(identifier));
    var xml := Replace(xml, TitleSlot, title);
    var xml := Replace(xml, PublisherSlot, publisher);
    var xml := Replace(xml, PublisherYearSlot, PublicationYearText(year));
    var xml := Replace(xml, DescriptionSlot, description);
    var xml := Replace(xml, CreatorsSlot, creators);
    var xml := Replace(xml, RelatedIdentifiersSlot, related);
    Replace(xml, ContributorsSlot, contributors)
  }

  /** The placeholders generateXML fills. */
  predicate HasNoPlaceholder(template: string)
  {
    && !Contains(template, IdentifierSlot) && !Contains(template, TitleSlot)
    && !Contains(template, PublisherSlot) && !Contains(template, PublisherYearSlot)
    && !Contains(template, DescriptionSlot) && !Contains(template, CreatorsSlot)
    && !Contains(template, RelatedIdentifiersSlot) && !Contains(template, ContributorsSlot)
  }

  /** A template without any placeholder comes out exactly as it went in. */
  lemma FillTemplateWithoutPlaceholders(template: string, identifier: string, title: string, publisher: string,
                                        year: Option<string>, description: string,
                                        creators: string, related: string, contributors: string)
    requires HasNoPlaceholder(template)
    ensures FillTemplate(template, identifier, title, publisher, year, description, creators, related, contributors)
            == template
  {
    ReplaceWithoutTarget(template, IdentifierSlot, Trim(identifier));
    ReplaceWithoutTarget(template, TitleSlot, title);
    ReplaceWithoutTarget(template, PublisherSlot, publisher);
    ReplaceWithoutTarget(template, PublisherYearSlot, PublicationYearText(year));
    ReplaceWithoutTarget(template, DescriptionSlot, description);
    ReplaceWithoutTarget(template, CreatorsSlot, creators);
    ReplaceWithoutTarget(template, RelatedIdentifiersSlot, related);
    ReplaceWithoutTarget(template, ContributorsSlot, contributors);
  }

  // ---------------------------------------------------------------------------------------
  // What filling does to a template made of plain text and placeholders

  /** The characters placeholders are written with. */
  predicate IsPlaceholderChar(c: char)
  {
    c == '$' || c == '{' || c == '}'
  }

  /** Text in which no placeholder can begin or end. */
  predicate Plain(s: string)
  {
    forall i :: 0 <= i < |s| ==> !IsPlaceholderChar(s[i])
  }

  /** `${name}` or `{$name}`, the name itself free of placeholder characters. */
  predicate IsPlaceholderShape(t: string)
  {
    && |t| >= 4
    && ((t[0] == '$' && t[1] == '{') || (t[0] == '{' && t[1] == '$'))
    && t[|t| - 1] == '}'
    && forall i :: 2 <= i < |t| - 1 ==> !IsPlaceholderChar(t[i])
  }

  datatype Placeholder =
    | IdentifierHole | TitleHole | PublisherHole | PublisherYearHole
    | DescriptionHole | CreatorsHole | RelatedIdentifiersHole | ContributorsHole

  /** How each placeholder is written in the template. */
  function SlotOf(h: Placeholder): string
  {
    match h
    case IdentifierHole => IdentifierSlot
    case TitleHole => TitleSlot
    case PublisherHole => PublisherSlot
    case PublisherYearHole => PublisherYearSlot
    case DescriptionHole => DescriptionSlot
    case CreatorsHole => CreatorsSlot
    case RelatedIdentifiersHole => RelatedIdentifiersSlot
    case ContributorsHole => ContributorsSlot
  }

  /** Every placeholder has the placeholder shape. */
  lemma SlotShape(h: Placeholder)
    ensures IsPlaceholderShape(SlotOf(h))
  {
  }

  /** When generateXML replaces each placeholder: first the identifier, last the contributors. */
  function Rank(h: Placeholder): nat
  {
    match h
    case IdentifierHole => 0
    case TitleHole => 1
    case PublisherHole => 2
    case PublisherYearHole => 3
    case DescriptionHole => 4
    case CreatorsHole => 5
    case RelatedIdentifiersHole => 6
    case ContributorsHole => 7
  }

  /** A template read as a sequence of plain text and placeholders. */
  datatype Piece = Text(text: string) | Hole(placeholder: Placeholder)

  predicate PlainText(pieces: seq<Piece>)
  {
    forall i :: 0 <= i < |pieces| && pieces[i].Text? ==> Plain(pieces[i].text)
  }

  /** The value generateXML substitutes for each placeholder. */
  datatype Values = Values(
    identifier: string, title: string, publisher: string, publisherYear: string,
    description: string, creators: string, relatedIdentifiers: string, contributors: string)

  function ValueOf(vals: Values, h: Placeholder): string
  {
    match h
    case IdentifierHole => vals.identifier
    case TitleHole => vals.title
    case PublisherHole => vals.publisher
    case PublisherYearHole => vals.publisherYear
    case DescriptionHole => vals.description
    case CreatorsHole => vals.creators
    case RelatedIdentifiersHole => vals.relatedIdentifiers
    case ContributorsHole => vals.contributors
  }

  predicate PlainValues(vals: Values)
  {
    && Plain(vals.identifier) && Plain(vals.title) && Plain(vals.publisher) && Plain(vals.publisherYear)
    && Plain(vals.description) && Plain(vals.creators) && Plain(vals.relatedIdentifiers) && Plain(vals.contributors)
  }

  /** The template text: every placeholder written out. */
  function TemplateText(pieces: seq<Piece>): string
  {
    if pieces == [] then ""
    else (match pieces[0] case Text(t) => t case Hole(h) => SlotOf(h)) + TemplateText(pieces[1..])
  }

  /** The intended document: every placeholder replaced by its value. */
  function FilledText(pieces: seq<Piece>, vals: Values): string
  {
    if pieces == [] then ""
    else (match pieces[0] case Text(t) => t case Hole(h) => ValueOf(vals, h)) + FilledText(pieces[1..], vals)
  }

  /**
   * The text after the first `n` replacements: the placeholders ranked below `n` hold their
   * values, the others are still written out.
   */
  function Stage(pieces: seq<Piece>, n: nat, vals: Values): string
  {
    if pieces == [] then "" else PieceAt(pieces[0], n, vals) + Stage(pieces[1..], n, vals)
  }

  /** One piece after the first `n` replacements. */
  function PieceAt(piece: Piece, n: nat, vals: Values): string
  {
    match piece
    case Text(t) => t
    case Hole(h) => if Rank(h) < n then ValueOf(vals, h) else SlotOf(h)
  }

  /** Before any replacement the text is the template. */
  lemma {:induction false} StageZero(pieces: seq<Piece>, vals: Values)
    ensures Stage(pieces, 0, vals) == TemplateText(pieces)
    decreases |pieces|
  {
    if pieces != [] {
      StageZero(pieces[1..], vals);
    }
  }

  /** After all eight replacements every placeholder holds its value. */
  lemma {:induction false} StageEight(pieces: seq<Piece>, vals: Values)
    ensures Stage(pieces, 8, vals) == FilledText(pieces, vals)
    decreases |pieces|
  {
    if pieces != [] {
      StageEight(pieces[1..], vals);
    }
  }

  /** No placeholder begins inside plain text. */
  lemma NoSlotStartsInPlain(a: string, b: string, t: string)
    requires Plain(a) && IsPlaceholderShape(t)
    ensures forall i: nat :: i < |a| ==> !OccursAt(a + b, t, i)
  {
    forall i: nat | i < |a|
      ensures !OccursAt(a + b, t, i)
    {
      if i + |t| <= |a + b| {
        assert (a + b)[i..i + |t|][0] == a[i];
      }
    }
  }

  /** Inside one placeholder no other placeholder begins. */
  lemma NoSlotStartsInOtherSlot(s: string, b: string, t: string)
    requires IsPlaceholderShape(s) && IsPlaceholderShape(t) && s != t
    ensures forall i: nat :: i < |s| ==> !OccursAt(s + b, t, i)
  {
    forall i: nat | i < |s|
      ensures !OccursAt(s + b, t, i)
    {
      var x := s + b;
      if i + |t| <= |x| {
        var w := x[i..i + |t|];
        if i >= 2 {
          assert w[0] == s[i];
          assert w[0] != t[0];
        } else if i == 1 {
          assert w[1] == s[2];
          assert w[1] != t[1];
        } else if |t| < |s| {
          assert w[|t| - 1] == s[|t| - 1];
          assert w[|t| - 1] != t[|t| - 1];
        } else if |t| == |s| {
          assert w == s;
        } else {
          assert w[|s| - 1] == s[|s| - 1];
          assert w[|s| - 1] != t[|s| - 1];
        }
      }
    }
  }

  /** Replacing a piece that does not start the target copies it and goes on. */
  lemma ReplaceSkipsPiece(a: string, b: string, t: string, v: string)
    requires IsPlaceholderShape(t)
    requires Plain(a) || (IsPlaceholderShape(a) && a != t)
    ensures Replace(a + b, t, v) == a + Replace(b, t, v)
  {
    if Plain(a) {
      NoSlotStartsInPlain(a, b, t);
    } else {
      NoSlotStartsInOtherSlot(a, b, t);
    }
    ReplaceSkipsPrefix(a, b, t, v);
  }

  /**
   * One replacement of generateXML: over plain text and plain values, replacing the
   * placeholder ranked `Rank(h)` fills exactly its own occurrences and leaves the later
   * placeholders where they are.
   */
  lemma {:induction false} ReplaceStep(pieces: seq<Piece>, vals: Values, h: Placeholder)
    requires PlainText(pieces) && PlainValues(vals)
    ensures Replace(Stage(pieces, Rank(h), vals), SlotOf(h), ValueOf(vals, h)) == Stage(pieces, Rank(h) + 1, vals)
    decreases |pieces|
  {
    if pieces != [] {
      var rest := Stage(pieces[1..], Rank(h), vals);
      assert PlainText(pieces[1..]) by {
        forall i | 0 <= i < |pieces[1..]| && pieces[1..][i].Text?
          ensures Plain(pieces[1..][i].text)
        {
          assert pieces[1..][i] == pieces[i + 1];
        }
      }
      ReplaceStep(pieces[1..], vals, h);
      ReplaceOverPiece(pieces[0], rest, vals, h);
    }
  }

  /** The replacement of `h` over one piece followed by any text. */
  lemma ReplaceOverPiece(piece: Piece, rest: string, vals: Values, h: Placeholder)
    requires piece.Text? ==> Plain(piece.text)
    requires PlainValues(vals)
    ensures Replace(PieceAt(piece, Rank(h), vals) + rest, SlotOf(h), ValueOf(vals, h))
            == PieceAt(piece, Rank(h) + 1, vals) + Replace(rest, SlotOf(h), ValueOf(vals, h))
  {
    SlotShape(h);
    match piece
    case Text(a) =>
      ReplaceSkipsPiece(a, rest, SlotOf(h), ValueOf(vals, h));
    case Hole(k) =>
      if Rank(k) < Rank(h) {
        ReplaceSkipsPiece(ValueOf(vals, k), rest, SlotOf(h), ValueOf(vals, h));
      } else if k == h {
        ReplaceAtFront(rest, SlotOf(h), ValueOf(vals, h));
      } else {
        SlotShape(k);
        ReplaceSkipsPiece(SlotOf(k), rest, SlotOf(h), ValueOf(vals, h));
      }
  }

  lemma PlainTrim(s: string)
    requires Plain(s)
    ensures Plain(Trim(s))
  {
    var front := TrimStart(s);
    assert Plain(front) by {
      forall k | 0 <= k < |front|
        ensures !IsPlaceholderChar(front[k])
      {
        assert front[k] == s[|s| - |front| + k];
      }
    }
    var r := TrimEnd(front);
    assert Trim(s) == r;
    forall k | 0 <= k < |r|
      ensures !IsPlaceholderChar(r[k])
    {
      assert r[k] == front[k];
    }
  }

  /**
   * generateXML fills a template: when the template's text and the values are plain, the
   * result is the template with every placeholder, wherever and however often it occurs,
   * replaced by its value (the identifier trimmed, the year falling back to 9999).
   */
  lemma FillTemplateFillsPlaceholders(pieces: seq<Piece>, identifier: string, title: string, publisher: string,
                                      year: Option<string>, description: string,
                                      creators: string, related: string, contributors: string)
    requires PlainText(pieces)
    requires Plain(identifier) && Plain(title) && Plain(publisher) && Plain(PublicationYearText(year))
    requires Plain(description) && Plain(creators) && Plain(related) && Plain(contributors)
    ensures FillTemplate(TemplateText(pieces), identifier, title, publisher, year, description,
                         creators, related, contributors)
            == FilledText(pieces, Values(Trim(identifier), title, publisher, PublicationYearText(year),
                                         description, creators, related, contributors))
  {
    var vals := Values(Trim(identifier), title, publisher, PublicationYearText(year),
                       description, creators, related, contributors);
    PlainTrim(identifier);
    StageZero(pieces, vals);
    FillFirstFour(pieces, vals);
    FillLastFour(pieces, vals);
    StageEight(pieces, vals);
  }

  /** ReplaceStep, with the placeholder's text and value given as FillTemplate writes them. */
  lemma ReplaceStepAs(pieces: seq<Piece>, vals: Values, h: Placeholder, target: string, value: string)
    requires PlainText(pieces) && PlainValues(vals)
    requires target == SlotOf(h) && value == ValueOf(vals, h)
    ensures Replace(Stage(pieces, Rank(h), vals), target, value) == Stage(pieces, Rank(h) + 1, vals)
  {
    ReplaceStep(pieces, vals, h);
  }

  /** Two consecutive replacements of generateXML. */
  lemma TwoStepsAs(pieces: seq<Piece>, vals: Values, n: nat, h: Placeholder, t1: string, v1: string,
                   k: Placeholder, t2: string, v2: string, m: nat)
    requires PlainText(pieces) && PlainValues(vals) && Rank(h) == n && Rank(k) == n + 1 && m == n + 2
    requires t1 == SlotOf(h) && v1 == ValueOf(vals, h) && t2 == SlotOf(k) && v2 == ValueOf(vals, k)
    ensures Replace(Replace(Stage(pieces, n, vals), t1, v1), t2, v2) == Stage(pieces, m, vals)
  {
    ReplaceStepAs(pieces, vals, h, t1, v1);
    ReplaceStepAs(pieces, vals, k, t2, v2);
  }

  /** The identifier, title, publisher and year replacements of FillTemplate. */
  lemma FillFirstFour(pieces: seq<Piece>, vals: Values)
    requires PlainText(pieces) && PlainValues(vals)
    ensures Replace(Replace(Replace(Replace(Stage(pieces, 0, vals),
              IdentifierSlot, vals.identifier), TitleSlot, vals.title),
              PublisherSlot, vals.publisher), PublisherYearSlot, vals.publisherYear)
            == Stage(pieces, 4, vals)
  {
    TwoStepsAs(pieces, vals, 0, IdentifierHole, IdentifierSlot, vals.identifier, TitleHole, TitleSlot, vals.title, 2);
    TwoStepsAs(pieces, vals, 2, PublisherHole, PublisherSlot, vals.publisher,
               PublisherYearHole, PublisherYearSlot, vals.publisherYear, 4);
  }

  /** The description, creators, related-identifier and contributors replacements of FillTemplate. */
  lemma FillLastFour(pieces: seq<Piece>, vals: Values)
    requires PlainText(pieces) && PlainValues(vals)
    ensures Replace(Replace(Replace(Replace(Stage(pieces, 4, vals),
              DescriptionSlot, vals.description), CreatorsSlot, vals.creators),
              RelatedIdentifiersSlot, vals.relatedIdentifiers), ContributorsSlot, vals.contributors)
            == Stage(pieces, 8, vals)
  {
    TwoStepsAs(pieces, vals, 4, DescriptionHole, DescriptionSlot, vals.description,
               CreatorsHole, CreatorsSlot, vals.creators, 6);
    TwoStepsAs(pieces, vals, 6, RelatedIdentifiersHole, RelatedIdentifiersSlot, vals.relatedIdentifiers,
               ContributorsHole, ContributorsSlot, vals.contributors, 8);
  }

  /** A placeholder is left alone by the replacement of another one. */
  lemma ReplaceOtherSlot(h: Placeholder, k: Placeholder, text: string, target: string, v: string)
    requires h != k && text == SlotOf(h) && target == SlotOf(k)
    ensures Replace(text, target, v) == text
  {
    var empty: string := [];
    SlotShape(h);
    SlotShape(k);
    assert |SlotOf(h)| != |SlotOf(k)|;
    assert SlotOf(h) + empty == SlotOf(h);
    ReplaceSkipsPiece(SlotOf(h), empty, SlotOf(k), v);
  }

  /** Plain text is left alone by every replacement. */
  lemma ReplaceInPlain(a: string, k: Placeholder, target: string, v: string)
    requires Plain(a) && target == SlotOf(k)
    ensures Replace(a, target, v) == a
  {
    var empty: string := [];
    SlotShape(k);
    assert a + empty == a;
    ReplaceSkipsPiece(a, empty, SlotOf(k), v);
  }

  /**
   * The replacements are chained: a title that reads `${description}` is replaced in turn
   * and the description appears in its place.
   */
  lemma TitleTakesDescription(template: string, identifier: string, title: string, publisher: string,
                              year: Option<string>, description: string,
                              creators: string, related: string, contributors: string)
    requires template == TitleSlot && title == DescriptionSlot && Plain(description)
    ensures FillTemplate(template, identifier, title, publisher, year, description,
                         creators, related, contributors) == description
  {
    var early := Replace(Replace(Replace(Replace(template, IdentifierSlot, Trim(identifier)), TitleSlot, title),
                                 PublisherSlot, publisher), PublisherYearSlot, PublicationYearText(year));
    assert early == title by {
      ReplaceOtherSlot(TitleHole, IdentifierHole, template, IdentifierSlot, Trim(identifier));
      ReplaceWhole(template, title);
      ReplaceOtherSlot(DescriptionHole, PublisherHole, title, PublisherSlot, publisher);
      ReplaceOtherSlot(DescriptionHole, PublisherYearHole, title, PublisherYearSlot, PublicationYearText(year));
    }
    ReplaceWhole(title, description);
    ReplaceInPlain(description, CreatorsHole, CreatorsSlot, creators);
    ReplaceInPlain(description, RelatedIdentifiersHole, RelatedIdentifiersSlot, related);
    ReplaceInPlain(description, ContributorsHole, ContributorsSlot, contributors);
  }

  /**
   * ... while a description that reads `${title}` comes after the title's replacement and
   * stays in the document as written.
   */
  lemma DescriptionKeepsTitleSlot(template: string, identifier: string, title: string, publisher: string,
                                  year: Option<string>, description: string,
                                  creators: string, related: string, contributors: string)
    requires template == DescriptionSlot && description == TitleSlot
    ensures FillTemplate(template, identifier, title, publisher, year, description,
                         creators, related, contributors) == description
  {
    var early := Replace(Replace(Replace(Replace(template, IdentifierSlot, Trim(identifier)), TitleSlot, title),
                                 PublisherSlot, publisher), PublisherYearSlot, PublicationYearText(year));
    assert early == template by {
      ReplaceOtherSlot(DescriptionHole, IdentifierHole, template, IdentifierSlot, Trim(identifier));
      ReplaceOtherSlot(DescriptionHole, TitleHole, template, TitleSlot, title);
      ReplaceOtherSlot(DescriptionHole, PublisherHole, template, PublisherSlot, publisher);
      ReplaceOtherSlot(DescriptionHole, PublisherYearHole, template, PublisherYearSlot, PublicationYearText(year));
    }
    ReplaceWhole(template, description);
    ReplaceOtherSlot(TitleHole, CreatorsHole, description, CreatorsSlot, creators);
    ReplaceOtherSlot(TitleHole, RelatedIdentifiersHole, description, RelatedIdentifiersSlot, related);
    ReplaceOtherSlot(TitleHole, ContributorsHole, description, ContributorsSlot, contributors);
  }

  /** The values generateXML substitutes, apart from the related-identifier block. */
  datatype DocumentFields = DocumentFields(
    identifier: string, title: string, publisher: string, publisherYear: Option<string>,
    description: string, authors: seq<Author>, contacts: seq<Party>, producers: seq<Party>)

  /** The document generateXML produces from these values and these related identifiers. */
  function Document(template: string, f: DocumentFields, related: seq<RelatedIdentifier>): string
  {
    FillTemplate(template, f.identifier, f.title, f.publisher, f.publisherYear, f.description,
                 CreatorsXml(f.authors), RelatedIdentifiersXml(related), ContributorsXml(f.contacts, f.producers))
  }

  /**
   * The body of generateXML apart from the related-identifier block, which it takes as
   * `related`: the placeholder replacements in order, the year falling back to 9999, and the
   * creator and contributor loops.
   */
  method FillPlaceholders(template: string, f: DocumentFields, related: string) returns (xml: string)
    ensures xml == FillTemplate(template, f.identifier, f.title, f.publisher, f.publisherYear, f.description,
                                CreatorsXml(f.authors), related, ContributorsXml(f.contacts, f.producers))
  {
    var publisherYearFinal := SentinelYear;
    if f.publisherYear.Some? {
      publisherYearFinal := f.publisherYear.value;
    }
    xml := Replace(template, IdentifierSlot, Trim(f.identifier));
    xml := Replace(xml, TitleSlot, f.title);
    xml := Replace(xml, PublisherSlot, f.publisher);
    xml := Replace(xml, PublisherYearSlot, publisherYearFinal);
    xml := Replace(xml, DescriptionSlot, f.description);
    var creatorsElement := BuildCreators(f.authors);
    xml := Replace(xml, CreatorsSlot, creatorsElement);
    var contributorsElement := BuildContributors(f.contacts, f.producers);
    xml := Replace(xml, RelatedIdentifiersSlot, related);
    xml := Replace(xml, ContributorsSlot, contributorsElement);
  }

  /**
   * GlobalIdMetadataTemplate: the template text (the classpath resource, supplied here as a
   * string) and the fields getMetadataFromDvObject fills before generateXML reads them. A
   * field the setters have not filled is null (None).
   */
  class MetadataTemplate {
    var template: string
    var xmlMetadata: Option<string>
    var identifier: Option<string>
    var datafileIdentifiers: Option<seq<string>>
    var title: Option<string>
    var publisher: Option<string>
    var publisherYear: Option<string>
    var authors: Option<seq<Author>>
    var description: Option<string>
    var contacts: Option<seq<Party>>
    var producers: Option<seq<Party>>

    constructor (template: string)
      ensures this.template == template
      ensures xmlMetadata.None? && identifier.None? && datafileIdentifiers.None? && title.None?
      ensures publisher.None? && publisherYear.None? && authors.None? && description.None?
      ensures contacts.None? && producers.None?
    {
      this.template := template;
      xmlMetadata, identifier, datafileIdentifiers := None, None, None;
      title, publisher, publisherYear, authors := None, None, None, None;
      description, contacts, producers := None, None, None;
    }

    /** Every field generateXML dereferences is set (publisherYear may stay null). */
    predicate Filled()
      reads this
    {
      identifier.Some? && title.Some? && publisher.Some? && authors.Some?
      && description.Some? && contacts.Some? && producers.Some?
    }

    /** The values the setters put in. */
    function Fields(): DocumentFields
      requires Filled()
      reads this
    {
      DocumentFields(identifier.value, title.value, publisher.value, publisherYear, description.value,
                     authors.value, contacts.value, producers.value)
    }

    /**
     * generateRelatedIdentifiers: the related-identifier block for the object. For a dataset
     * that lists its files it also resets datafileIdentifiers to an empty list.
     */
    method GenerateRelatedIdentifiers(obj: DvObject) returns (related: string)
      requires obj.dtype == DataFile ==> obj.owner != null
      modifies this`datafileIdentifiers
      ensures related == old(RelatedIdentifiersXml(RelatedOf(RelatedSourceOf(obj))))
      ensures datafileIdentifiers == if old(obj.dtype == Dataset && ListsFiles(obj)) then Some([]) else old(datafileIdentifiers)
    {
      var sb := "";
      if obj.dtype == Dataset {
        if obj.files != [] && obj.files[0].identifier.Some? {
          datafileIdentifiers := Some([]);
          RelatedSourceUnchanged(obj);
          sb := AppendHasParts(obj.files);
          if sb != [] {
            sb := sb + RelatedBlockCloseTag;
          }
        }
      } else {
        sb := sb + RelatedBlockOpenTag;
        sb := sb + IsPartOfOpenTag + GlobalIdText(obj.owner) + RelatedCloseTag;
        sb := sb + RelatedBlockCloseTag;
        DataFileIsPartOfOwner(obj);
      }
      related := sb;
    }

    /**
     * generateXML: the template with every placeholder replaced in order, the year falling
     * back to 9999; the result is also kept in xmlMetadata.
     */
    method GenerateXml(obj: DvObject) returns (xml: string)
      requires Filled()
      requires obj.dtype == DataFile ==> obj.owner != null
      modifies this`xmlMetadata, this`datafileIdentifiers
      ensures xml == old(Document(template, Fields(), RelatedOf(RelatedSourceOf(obj))))
      ensures xmlMetadata == Some(xml)
      ensures datafileIdentifiers == if old(obj.dtype == Dataset && ListsFiles(obj)) then Some([]) else old(datafileIdentifiers)
    {
      var template, f := template, Fields();
      var relIdentifiers := GenerateRelatedIdentifiers(obj);
      xml := FillPlaceholders(template, f, relIdentifiers);
      xmlMetadata := Some(xml);
    }
  }

  /**
   * identifier.substring(identifier.indexOf(':') + 1): everything after the first ':', or
   * the whole text when there is none.
   */
  function AfterFirstColon(identifier: string): (r: string)
    ensures (forall k :: 0 <= k < |identifier| ==> identifier[k] != ':') ==> r == identifier
    ensures forall i: nat :: FirstAt(identifier, ':', 0, i) ==> r == identifier[i + 1..]
  {
    identifier[IndexOf(identifier, ':', 0) + 1..]
  }

  /** The dataset whose latest version supplies authors, contacts and producers. */
  function DatasetOf(obj: DvObject): DvObject
    requires obj.dtype == Dataset || (obj.owner != null && obj.owner.dtype == Dataset)
    reads obj, obj.owner
  {
    if obj.dtype == Dataset then obj else obj.owner
  }

  /** The description: the dataset's plain-text description, or the file's own ("" when null). */
  function DescriptionOf(obj: DvObject): string
    reads obj
  {
    if obj.dtype == Dataset then obj.latestVersion.descriptionPlainText
    else if obj.description.Some? then obj.description.value
    else ""
  }

  /**
   * What getMetadataFromDvObject passes to the setters: the identifier without everything up
   * to and including its first ':'; authors, contacts and producers from the owning dataset's
   * latest version; the publisher is the root dataverse's name with the UNAVAILABLE fallback;
   * the year is the map's publication year, if any.
   */
  function FieldsFrom(identifier: string, metadata: map<string, string>, obj: DvObject,
                      rootDataverseName: string): DocumentFields
    requires obj.dtype == Dataset || (obj.owner != null && obj.owner.dtype == Dataset)
    reads obj, obj.owner
  {
    var version := DatasetOf(obj).latestVersion;
    DocumentFields(AfterFirstColon(identifier), obj.currentName, TextOrUnavailable(rootDataverseName),
                   if YearKey in metadata then Some(metadata[YearKey]) else None, DescriptionOf(obj),
                   version.authors, version.contacts, version.producers)
  }

  /**
   * A fresh template filled through its setters, as getMetadataFromDvObject does before it
   * calls generateXML.
   */
  method NewFilledTemplate(template: string, f: DocumentFields) returns (metadataTemplate: MetadataTemplate)
    ensures fresh(metadataTemplate) && metadataTemplate.Filled()
    ensures metadataTemplate.template == template && metadataTemplate.Fields() == f
  {
    metadataTemplate := new MetadataTemplate(template);
    metadataTemplate.identifier := Some(f.identifier);
    metadataTemplate.authors := Some(f.authors);
    metadataTemplate.description := Some(f.description);
    metadataTemplate.contacts := Some(f.contacts);
    metadataTemplate.producers := Some(f.producers);
    metadataTemplate.title := Some(f.title);
    metadataTemplate.publisher := Some(f.publisher);
    metadataTemplate.publisherYear := f.publisherYear;
  }

  /**
   * getMetadataFromDvObject: fills a fresh template from the object and the flat metadata map
   * and generates the document from it.
   */
  method GetMetadataFromDvObject(template: string, identifier: string, metadata: map<string, string>,
                                 obj: DvObject, rootDataverseName: string) returns (xml: string)
    requires obj.dtype == Dataset || (obj.owner != null && obj.owner.dtype == Dataset)
    ensures xml == old(Document(template, FieldsFrom(identifier, metadata, obj, rootDataverseName),
                                RelatedOf(RelatedSourceOf(obj))))
  {
    var f := FieldsFrom(identifier, metadata, obj, rootDataverseName);
    var metadataTemplate := NewFilledTemplate(template, f);
    RelatedSourceUnchanged(obj);
    xml := metadataTemplate.GenerateXml(obj);
  }
}
