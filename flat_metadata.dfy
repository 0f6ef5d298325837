/**
 * The flat key/value metadata sent with lightweight registry calls: addBasicMetadata and the
 * maps built on it, the target URL, and the fixed map for a destroyed object.
 */
module FlatMetadata {
  import opened JavaStrings
  import opened Objects

  /** AbstractGlobalIdServiceBean.UNAVAILABLE. */
  const Unavailable: string := ":unav"
  /** DatasetField.NA_VALUE, the application's "not applicable" entry. */
  const NaValue: string := "N/A"

  const CreatorKey: string := "datacite.creator"
  const TitleKey: string := "datacite.title"
  const PublisherKey: string := "datacite.publisher"
  const YearKey: string := "datacite.publicationyear"
  const TargetKey: string := "_target"

  const RemovedTitle: string := "This item has been removed from publication"
  /** The year registries get when there is none: they accept only four digits. */
  const SentinelYear: string := "9999"

  /** The marker itself neither is nor contains the "not applicable" entry. */
  lemma UnavailableIsNotNa()
    ensures !Contains(Unavailable, NaValue)
  {
    forall i: nat ensures !OccursAt(Unavailable, NaValue, i) {
      if i + 3 <= 5 {
        assert Unavailable[i + 1] != NaValue[1];
      }
    }
  }

  /**
   * The creator: the author string, unless it is empty or contains the "not applicable"
   * entry, in which case UNAVAILABLE. What is sent is never empty and never contains it.
   */
  function CreatorValue(author: string): (r: string)
    ensures r != [] && !Contains(r, NaValue)
    ensures author != [] && !Contains(author, NaValue) ==> r == author
    ensures author == [] || Contains(author, NaValue) ==> r == Unavailable
  {
    UnavailableIsNotNa();
    if author == [] || Contains(author, NaValue) then Unavailable else author
  }

  /**
   * Title and publisher: the value, unless it is empty or equal to the "not applicable"
   * entry, in which case UNAVAILABLE. What is sent is never empty and never that entry.
   */
  function TextOrUnavailable(s: string): (r: string)
    ensures r != [] && r != NaValue
    ensures s != [] && s != NaValue ==> r == s
    ensures s == [] || s == NaValue ==> r == Unavailable
  {
    if s == [] || s == NaValue then Unavailable else s
  }

  /** getTargetUrl: site URL, the object's target path, and its global id text, in that order. */
  function TargetUrl(siteUrl: string, obj: DvObject): (r: string)
    reads obj
    ensures |r| == |siteUrl| + |obj.targetUrl| + |GlobalIdText(obj)|
    ensures r[..|siteUrl|] == siteUrl
    ensures r[|siteUrl|..|siteUrl| + |obj.targetUrl|] == obj.targetUrl
    ensures r[|r| - |GlobalIdText(obj)|..] == GlobalIdText(obj)
  {
    siteUrl + obj.targetUrl + GlobalIdText(obj)
  }

  /** The four entries addBasicMetadata writes, with their values. */
  ghost predicate HasBasicMetadata(obj: DvObject, rootDataverseName: string, m: map<string, string>)
    reads obj
  {
    && CreatorKey in m && m[CreatorKey] == CreatorValue(obj.authorString)
    && TitleKey in m && m[TitleKey] == TextOrUnavailable(obj.currentName)
    && PublisherKey in m && m[PublisherKey] == TextOrUnavailable(rootDataverseName)
    && YearKey in m && m[YearKey] == obj.yearPublishedCreated
  }

  /**
   * addBasicMetadata: puts creator, title, publisher (the root dataverse's name) and year into
   * the map, overwriting those four keys and leaving every other entry as it was.
   */
  method AddBasicMetadata(obj: DvObject, rootDataverseName: string, metadata: map<string, string>)
    returns (m: map<string, string>)
    ensures HasBasicMetadata(obj, rootDataverseName, m)
    ensures m.Keys == metadata.Keys + {CreatorKey, TitleKey, PublisherKey, YearKey}
    ensures forall k :: k in metadata && k !in {CreatorKey, TitleKey, PublisherKey, YearKey} ==> m[k] == metadata[k]
  {
    var authorString := CreatorValue(obj.authorString);
    var producerString := TextOrUnavailable(rootDataverseName);
    var titleString := TextOrUnavailable(obj.currentName);
    m := metadata;
    m := m[CreatorKey := authorString];
    m := m[TitleKey := titleString];
    m := m[PublisherKey := producerString];
    m := m[YearKey := obj.yearPublishedCreated];
  }

  /** getUpdateMetadata: exactly the four basic entries. */
  method GetUpdateMetadata(obj: DvObject, rootDataverseName: string) returns (m: map<string, string>)
    ensures HasBasicMetadata(obj, rootDataverseName, m)
    ensures m.Keys == {CreatorKey, TitleKey, PublisherKey, YearKey}
  {
    m := AddBasicMetadata(obj, rootDataverseName, map[]);
  }

  /** getMetadataForCreateIndicator: the four basic entries plus the target URL. */
  method GetMetadataForCreateIndicator(obj: DvObject, rootDataverseName: string, siteUrl: string)
    returns (m: map<string, string>)
    ensures HasBasicMetadata(obj, rootDataverseName, m)
    ensures m.Keys == {CreatorKey, TitleKey, PublisherKey, YearKey, TargetKey}
    ensures m[TargetKey] == TargetUrl(siteUrl, obj)
  {
    m := AddBasicMetadata(obj, rootDataverseName, map[]);
    m := m[YearKey := obj.yearPublishedCreated];
    m := m[TargetKey := TargetUrl(siteUrl, obj)];
  }

  /** getMetadataForTargetURL: the target URL alone. */
  method GetMetadataForTargetUrl(obj: DvObject, siteUrl: string) returns (m: map<string, string>)
    ensures m.Keys == {TargetKey} && m[TargetKey] == TargetUrl(siteUrl, obj)
  {
    m := map[];
    m := m[TargetKey := TargetUrl(siteUrl, obj)];
  }

  /**
   * addDOIMetadataForDestroyedDataset: the same inert entries whatever the object holds:
   * creator and publisher UNAVAILABLE, the removal notice as title, year 9999.
   */
  method AddDoiMetadataForDestroyedDataset(obj: DvObject) returns (m: map<string, string>)
    ensures m.Keys == {CreatorKey, TitleKey, PublisherKey, YearKey}
    ensures m[CreatorKey] == Unavailable && m[PublisherKey] == Unavailable
    ensures m[TitleKey] == RemovedTitle && m[YearKey] == SentinelYear
  {
    var authorString := Unavailable;
    var producerString := Unavailable;
    var titleString := RemovedTitle;
    m := map[];
    m := m[CreatorKey := authorString];
    m := m[TitleKey := titleString];
    m := m[PublisherKey := producerString];
    m := m[YearKey := SentinelYear];
  }
}
