# Dataverse persistent-identifier service, modelled in Dafny

This project models the core of Dataverse's `AbstractGlobalIdServiceBean`: the part that mints
persistent identifiers (DOI, Handle and PermaLink style, `protocol:authority/identifier`) and
builds the metadata sent to a DataCite-style registry. It covers:

- **Parsing.** `parsePersistentId` and the `isGlobalIdUnique` decision. The local store is
  authoritative. A failed registry lookup counts as "unique".
- **Generators.** The three retry-until-unique generators: random six-character strings, the
  independent stored-procedure counter and the dependent in-process counter. The dataset/file
  dispatch that chooses the generator and its prefix, and `generateIdentifier`, which writes the
  result back onto the object.
- **Flat metadata maps.** The key/value maps for lightweight registry calls. `":unav"` replaces
  empty or not-applicable values. The destroyed-object map is fixed, and the target URL is a
  concatenation.
- **The DataCite XML document.** The creators block (DataCite property 2), the contributors
  block (property 7) and the related-identifiers block (property 12). The placeholder
  replacements of `GlobalIdMetadataTemplate.generateXML`, and `getMetadataFromDvObject`, which
  fills the template before generating.

Modules, one per file:

| module | file | models |
|---|---|---|
| `Nullable` | nullable.dfy | Java null as `Option`; Java's `"null"` in string concatenation |
| `JavaStrings` | java_strings.dfy | the `String`/`Long` operations the service uses: `indexOf`, `contains`, `replace`, `trim`, `toUpperCase`, `Long.toString` |
| `GlobalIds` | global_ids.dfy | `GlobalId`, `parsePersistentId` |
| `Uniqueness` | uniqueness.dfy | `isGlobalIdUnique` |
| `Generators` | generators.dfy | the three generator loops |
| `Objects` | objects.dfy | `DvObject` (a class: the service writes its identifier fields), authors, contacts, settings |
| `Dispatch` | dispatch.dfy | `generateDatasetIdentifier`, `generateDataFileIdentifier`, `generateIdentifier` |
| `FlatMetadata` | flat_metadata.dfy | `addBasicMetadata` and the maps built on it |
| `DataCiteXml` | datacite_xml.dfy | the XML blocks, `GlobalIdMetadataTemplate` (a class), `getMetadataFromDvObject` |

Collaborators whose code is not part of this model are parameters:
- `formatIdentifierString`, `testforNullTerminator` and `checkDOIAuthority` are the
  function-valued fields of `IdHelpers`.
- `isGlobalIdLocallyUnique` and the registry's `alreadyExists`, which returns, returns false or
  throws, are the fields of `Registry`.
- The random draws and the stored-procedure values are finite sequences. Each generator requires
  that its loop stops within the values supplied. The Java loops have no bound and would not
  return otherwise.
- The settings store is a map, and `getRootDataverseName` is a string argument.
- The site URL and the template text are string arguments.

Constants from declarations outside `AbstractGlobalIdServiceBean.java` take Dataverse's values:
- the protocols `"doi"`, `"hdl"` and `"perma"`;
- `DatasetField.NA_VALUE`, which is `"N/A"`;
- the PID formats `"DEPENDENT"` and `"INDEPENDENT"`.

`GlobalId.asString` is modelled as `protocol:authority/identifier`, or `""` while any of the
three is unset.

Three behaviours of the code are easy to misread, and the model keeps them as written:
- **Empty authority.** The comment at `AbstractGlobalIdServiceBean.java` lines 197-199 asks for
  one or more characters between `:` and `/`, but line 197 only tests `index2 > 0`, which any
  `/` after a `:` at index 1 or later passes. So `doi:/x` and `hdl:/x` reach the later checks with
  an empty authority. `ParseSplitsComposedText` allows an empty authority.
- **Related identifiers.** A dataset emits HasPart links only when its *first* file's identifier
  is non-null (line 476). It then emits one entry for every file whose global id text is
  non-empty, whether or not that file's identifier was set.
- **Not-applicable sentinel.** For the creator, the code uses `":unav"` when the author string
  *contains* the sentinel (line 53). For the publisher and the title, it does so only when the
  value *equals* it (lines 59 and 65).

## Model

| member | source | states |
|---|---|---|
| JavaStrings.IndexOf | src/main/java/edu/harvard/iq/dataverse/AbstractGlobalIdServiceBean.java:194-196 | `indexOf(c, from)` is -1 exactly when no index at or after `from` holds `c`; otherwise the result holds `c` and no earlier index from `from` on does |
| JavaStrings.Contains | src/main/java/edu/harvard/iq/dataverse/AbstractGlobalIdServiceBean.java:53 | `contains` holds exactly when the text occurs at some index |
| JavaStrings.ReplaceWithoutTarget | src/main/java/edu/harvard/iq/dataverse/AbstractGlobalIdServiceBean.java:415-419 | `replace` leaves text without any occurrence of a non-empty target unchanged |
| JavaStrings.ReplaceWhole | src/main/java/edu/harvard/iq/dataverse/AbstractGlobalIdServiceBean.java:415-419 | text that is exactly the target becomes exactly the replacement |
| JavaStrings.ReplaceSkipsPrefix | src/main/java/edu/harvard/iq/dataverse/AbstractGlobalIdServiceBean.java:415-419 | a prefix in which no occurrence of the target starts is copied unchanged, and `replace` goes on after it |
| JavaStrings.ReplaceAtFront | src/main/java/edu/harvard/iq/dataverse/AbstractGlobalIdServiceBean.java:415-419 | text starting with the target begins with the replacement, and `replace` goes on after the target |
| JavaStrings.TrimStart | src/main/java/edu/harvard/iq/dataverse/AbstractGlobalIdServiceBean.java:415 | the result is a suffix of the text; everything dropped is at or below U+0020; the result does not start with such a character |
| JavaStrings.TrimEnd | src/main/java/edu/harvard/iq/dataverse/AbstractGlobalIdServiceBean.java:415 | the same at the end of the text |
| JavaStrings.Trim | src/main/java/edu/harvard/iq/dataverse/AbstractGlobalIdServiceBean.java:415 | `trim` is a slice of the text; all that is dropped on either side is trimmable; the result neither starts nor ends with a trimmable character |
| JavaStrings.ToUpperCase | src/main/java/edu/harvard/iq/dataverse/AbstractGlobalIdServiceBean.java:265 | same length; each lower-case ASCII letter becomes its capital and every other character is kept, so every ASCII letter or digit becomes an upper-case letter or a digit |
| JavaStrings.LongToString | src/main/java/edu/harvard/iq/dataverse/AbstractGlobalIdServiceBean.java:303 | `Long.toString` is non-empty and all decimal digits, with no leading zero for a positive value |
| JavaStrings.DecimalRoundTrip | src/main/java/edu/harvard/iq/dataverse/AbstractGlobalIdServiceBean.java:303 | reading the digits back gives the number |
| JavaStrings.LongToStringInjective | src/main/java/edu/harvard/iq/dataverse/AbstractGlobalIdServiceBean.java:302-303 | distinct counter values give distinct strings |
| GlobalIds.CheckParts | src/main/java/edu/harvard/iq/dataverse/AbstractGlobalIdServiceBean.java:199-215 | after the cut, the parse succeeds exactly when the protocol is doi, hdl or perma, the cleaned authority has no NUL and passes `checkDOIAuthority` for a DOI, and the cleaned identifier has no NUL; the result is (protocol, cleaned authority, cleaned identifier) |
| GlobalIds.ParseRejectsMalformed | src/main/java/edu/harvard/iq/dataverse/AbstractGlobalIdServiceBean.java:191-223 | null for null text, for no `:`, for `:` at index 0, for no `/` after the first `:`, and for a `/` that is the last character |
| GlobalIds.FirstIsIndexOf | src/main/java/edu/harvard/iq/dataverse/AbstractGlobalIdServiceBean.java:194-196 | `indexOf` returns exactly the first occurrence |
| GlobalIds.ParseSplitsComposedText | src/main/java/edu/harvard/iq/dataverse/AbstractGlobalIdServiceBean.java:194-224 | text composed of a protocol without `:`, an authority without `/` (possibly empty) and a non-empty identifier parses exactly as CheckParts decides on those parts; later `/` stay in the identifier |
| GlobalIds.ParseSuccessIsComposedText | src/main/java/edu/harvard/iq/dataverse/AbstractGlobalIdServiceBean.java:194-224 | conversely, every text that parses is such a composition, and the result is CheckParts of its parts |
| GlobalIds.ParseAsTextRoundTrip | src/main/java/edu/harvard/iq/dataverse/AbstractGlobalIdServiceBean.java:187-225 | a clean global id parses back from its text form to itself |
| Uniqueness.LocalDuplicateDecides | src/main/java/edu/harvard/iq/dataverse/AbstractGlobalIdServiceBean.java:171-174 | a local duplicate makes the id not unique, whatever the registry would answer |
| Uniqueness.RemoteDecidesWhenLocallyUnique | src/main/java/edu/harvard/iq/dataverse/AbstractGlobalIdServiceBean.java:176-183 | past the local store, unique exactly when the registry did not find the id; a failed lookup gives unique |
| Uniqueness.UniqueCharacterisation | src/main/java/edu/harvard/iq/dataverse/AbstractGlobalIdServiceBean.java:171-184 | unique exactly when locally unique and the registry did not find the id |
| Generators.GenerateIdentifierAsRandomString | src/main/java/edu/harvard/iq/dataverse/AbstractGlobalIdServiceBean.java:262-269 | the result is the candidate of the first draw that passes the check, so it is unique; it is `prepend` followed by six characters of [A-Z0-9] |
| Generators.RandomResultDeterministic | src/main/java/edu/harvard/iq/dataverse/AbstractGlobalIdServiceBean.java:264-266 | only one string is the first passing candidate |
| Generators.GenerateIdentifierFromStoredProcedureIndependent | src/main/java/edu/harvard/iq/dataverse/AbstractGlobalIdServiceBean.java:277-290 | null at the first null counter value; otherwise `prepend` + the first value whose candidate passes, which is unique |
| Generators.IndependentResultDeterministic | src/main/java/edu/harvard/iq/dataverse/AbstractGlobalIdServiceBean.java:279-287 | the outcome is determined by the counter values and the check |
| Generators.GenerateIdentifierFromStoredProcedureDependent | src/main/java/edu/harvard/iq/dataverse/AbstractGlobalIdServiceBean.java:295-308 | `prepend` + decimal(n) for the least n ≥ 1 whose candidate passes; `prepend` + "1" when that one passes |
| Generators.DependentCandidatesDistinct | src/main/java/edu/harvard/iq/dataverse/AbstractGlobalIdServiceBean.java:301-305 | distinct counter values give distinct candidates, so no candidate is tried twice |
| Generators.LeastPassingCounterUnique | src/main/java/edu/harvard/iq/dataverse/AbstractGlobalIdServiceBean.java:301-305 | only one counter value is the least passing one |
| Dispatch.DatasetPlanRules | src/main/java/edu/harvard/iq/dataverse/AbstractGlobalIdServiceBean.java:146-160 | datasets always use the shoulder (default "") as prefix; the independent counter is used exactly for storedProcGenerated, random strings otherwise (an unknown style included), and never the dependent counter |
| Dispatch.DataFilePlanRules | src/main/java/edu/harvard/iq/dataverse/AbstractGlobalIdServiceBean.java:228-254 | files use the owner identifier + "/" exactly when the format (default DEPENDENT) is DEPENDENT, the shoulder otherwise; storedProcGenerated uses the independent counter only for INDEPENDENT, the dependent one for any other format; other styles use random strings |
| Dispatch.DataFileDefaults | src/main/java/edu/harvard/iq/dataverse/AbstractGlobalIdServiceBean.java:229-235 | with nothing configured, a file gets a random string under `ownerIdentifier/`; a null owner identifier gives the prefix "null/" |
| Dispatch.RunPlan | src/main/java/edu/harvard/iq/dataverse/AbstractGlobalIdServiceBean.java:241-253 | the chosen generator's result; unique when set; null only from the independent counter |
| Dispatch.GenerateDatasetIdentifier | src/main/java/edu/harvard/iq/dataverse/AbstractGlobalIdServiceBean.java:146-160 | the result of the dataset plan's generator, unique under the dataset's protocol and authority |
| Dispatch.GenerateDataFileIdentifier | src/main/java/edu/harvard/iq/dataverse/AbstractGlobalIdServiceBean.java:228-254 | the result of the file plan's generator (with the owner's identifier), unique under the file's protocol and authority |
| Dispatch.GenerateIdentifier | src/main/java/edu/harvard/iq/dataverse/AbstractGlobalIdServiceBean.java:127-143 | the identifier is always overwritten, with null when generation gives null; protocol and authority are set from the settings only where they were null; candidates were checked under the protocol and authority as they were before the call |
| FlatMetadata.UnavailableIsNotNa | src/main/java/edu/harvard/iq/dataverse/AbstractGlobalIdServiceBean.java:31 | the `":unav"` marker does not contain the not-applicable value |
| FlatMetadata.CreatorValue | src/main/java/edu/harvard/iq/dataverse/AbstractGlobalIdServiceBean.java:52-55 | the author string, or `":unav"` exactly when it is empty or contains the not-applicable value; never empty, never contains it |
| FlatMetadata.TextOrUnavailable | src/main/java/edu/harvard/iq/dataverse/AbstractGlobalIdServiceBean.java:57-67 | the value, or `":unav"` exactly when it is empty or equals the not-applicable value; never empty, never equal to it |
| FlatMetadata.TargetUrl | src/main/java/edu/harvard/iq/dataverse/AbstractGlobalIdServiceBean.java:89-92 | site URL, target path and global id text, in that order and nothing else |
| FlatMetadata.AddBasicMetadata | src/main/java/edu/harvard/iq/dataverse/AbstractGlobalIdServiceBean.java:50-74 | creator, title, publisher and year are put with their fallbacks; the keys are the old keys plus these four; every other entry is kept |
| FlatMetadata.GetUpdateMetadata | src/main/java/edu/harvard/iq/dataverse/AbstractGlobalIdServiceBean.java:43-48 | exactly the four basic entries |
| FlatMetadata.GetMetadataForCreateIndicator | src/main/java/edu/harvard/iq/dataverse/AbstractGlobalIdServiceBean.java:34-41 | the four basic entries plus `_target` with the target URL |
| FlatMetadata.GetMetadataForTargetUrl | src/main/java/edu/harvard/iq/dataverse/AbstractGlobalIdServiceBean.java:103-108 | exactly `_target` with the target URL |
| FlatMetadata.AddDoiMetadataForDestroyedDataset | src/main/java/edu/harvard/iq/dataverse/AbstractGlobalIdServiceBean.java:76-87 | always creator and publisher `":unav"`, the removal notice as title and year 9999, whatever the object holds |
| DataCiteXml.SchemeOf | src/main/java/edu/harvard/iq/dataverse/AbstractGlobalIdServiceBean.java:428-436 | a name-identifier scheme exists exactly for ORCID, ISNI and LCNA, and carries that name |
| DataCiteXml.CreatorRules | src/main/java/edu/harvard/iq/dataverse/AbstractGlobalIdServiceBean.java:421-441 | a creator has a name identifier exactly when idType, idValue and the affiliation are set and non-empty and idType is ORCID, ISNI or LCNA; it has an affiliation exactly when the affiliation is non-empty; never an identifier without an affiliation |
| DataCiteXml.OrcidNeedsAffiliation | src/main/java/edu/harvard/iq/dataverse/AbstractGlobalIdServiceBean.java:426-440 | an ORCID author with affiliation "Acme" gets both elements; with an empty affiliation, neither |
| DataCiteXml.CreatorsXml | src/main/java/edu/harvard/iq/dataverse/AbstractGlobalIdServiceBean.java:421-442 | the block for all authors but the last is kept as a prefix, and the last author's element adds text after it |
| DataCiteXml.AppendNameIdentifier | src/main/java/edu/harvard/iq/dataverse/AbstractGlobalIdServiceBean.java:426-437 | the three `equals` tests append exactly the element of the creator's name identifier, or nothing |
| DataCiteXml.AppendCreator | src/main/java/edu/harvard/iq/dataverse/AbstractGlobalIdServiceBean.java:422-441 | one loop iteration appends the author's creator element |
| DataCiteXml.BuildCreators | src/main/java/edu/harvard/iq/dataverse/AbstractGlobalIdServiceBean.java:420-443 | the creators loop builds one creator element per author, in order |
| DataCiteXml.ProducersOf | src/main/java/edu/harvard/iq/dataverse/AbstractGlobalIdServiceBean.java:455-461 | one Producer entry per producer, in order, none skipped |
| DataCiteXml.ContactsOfRules | src/main/java/edu/harvard/iq/dataverse/AbstractGlobalIdServiceBean.java:446-454 | contacts with an empty name are skipped; every entry is a named ContactPerson from the list; every named contact has its entry |
| DataCiteXml.AppendContributor | src/main/java/edu/harvard/iq/dataverse/AbstractGlobalIdServiceBean.java:448-452 | one iteration of either contributor loop appends the row's element, with an affiliation only when non-empty |
| DataCiteXml.AppendContacts | src/main/java/edu/harvard/iq/dataverse/AbstractGlobalIdServiceBean.java:446-454 | the contact loop appends the elements of the named contacts, in order |
| DataCiteXml.AppendProducers | src/main/java/edu/harvard/iq/dataverse/AbstractGlobalIdServiceBean.java:455-461 | the producer loop appends every producer's element, in order |
| DataCiteXml.BuildContributors | src/main/java/edu/harvard/iq/dataverse/AbstractGlobalIdServiceBean.java:445-461 | the contributors block: contact elements, then producer elements |
| DataCiteXml.JoinRelated | src/main/java/edu/harvard/iq/dataverse/AbstractGlobalIdServiceBean.java:479-486 | appending entries keeps the builder's previous text as a prefix |
| DataCiteXml.FileGlobalIds | src/main/java/edu/harvard/iq/dataverse/AbstractGlobalIdServiceBean.java:479-480 | one global id text per file, in the files' order |
| DataCiteXml.AppendHasParts | src/main/java/edu/harvard/iq/dataverse/AbstractGlobalIdServiceBean.java:479-486 | the file loop writes the wrapper opening before the first entry and only then; it writes one HasPart element per file with a non-empty global id; without such a file it writes nothing |
| DataCiteXml.HasPartsSound | src/main/java/edu/harvard/iq/dataverse/AbstractGlobalIdServiceBean.java:479-486 | every HasPart entry carries a non-empty global id of a file; there are at most as many entries as files |
| DataCiteXml.HasPartsComplete | src/main/java/edu/harvard/iq/dataverse/AbstractGlobalIdServiceBean.java:479-486 | every non-empty file global id has its HasPart entry |
| DataCiteXml.HasPartsOnePerFile | src/main/java/edu/harvard/iq/dataverse/AbstractGlobalIdServiceBean.java:479-486 | when every file has a global id, exactly one entry per file, in order |
| DataCiteXml.DataFileIsPartOfOwner | src/main/java/edu/harvard/iq/dataverse/AbstractGlobalIdServiceBean.java:491-497 | a file yields exactly one wrapped IsPartOf entry for its owner's global id |
| DataCiteXml.DatasetWithoutListedFiles | src/main/java/edu/harvard/iq/dataverse/AbstractGlobalIdServiceBean.java:474-476 | a dataset with no files, or whose first file has no identifier, gets an empty related block |
| DataCiteXml.PublicationYearText | src/main/java/edu/harvard/iq/dataverse/AbstractGlobalIdServiceBean.java:409-414 | the year, or "9999" when it is null |
| DataCiteXml.FillTemplateWithoutPlaceholders | src/main/java/edu/harvard/iq/dataverse/AbstractGlobalIdServiceBean.java:415-467 | a template without any of the eight placeholders comes out unchanged |
| DataCiteXml.StageZero | src/main/java/edu/harvard/iq/dataverse/AbstractGlobalIdServiceBean.java:415 | before any replacement, the text is the template as written |
| DataCiteXml.StageEight | src/main/java/edu/harvard/iq/dataverse/AbstractGlobalIdServiceBean.java:415-467 | after all eight replacements, every placeholder holds its value |
| DataCiteXml.ReplaceStep | src/main/java/edu/harvard/iq/dataverse/AbstractGlobalIdServiceBean.java:415-467 | in a template of plain text and placeholders with plain values, each `replace` puts its value in place of its own placeholder and touches nothing else |
| DataCiteXml.FillTemplateFillsPlaceholders | src/main/java/edu/harvard/iq/dataverse/AbstractGlobalIdServiceBean.java:409-467 | a template of plain text and placeholders, filled with values free of `$`, `{` and `}`, becomes the same text with each placeholder replaced by its value: the trimmed identifier, the title, the publisher, the year or 9999, the description, and the three blocks |
| DataCiteXml.TitleTakesDescription | src/main/java/edu/harvard/iq/dataverse/AbstractGlobalIdServiceBean.java:415-419 | the replacements are chained: a template `${title}` with a title reading `${description}` comes out as the description |
| DataCiteXml.DescriptionKeepsTitleSlot | src/main/java/edu/harvard/iq/dataverse/AbstractGlobalIdServiceBean.java:415-419 | a template `${description}` with a description reading `${title}` keeps `${title}`, because the title was replaced before the description was inserted |
| DataCiteXml.FillPlaceholders | src/main/java/edu/harvard/iq/dataverse/AbstractGlobalIdServiceBean.java:409-467 | the replacements in generateXML's order, with the year's 9999 fallback and the creators and contributors blocks built by the loops; what this does to a template is stated by FillTemplateFillsPlaceholders |
| DataCiteXml.MetadataTemplate.constructor | src/main/java/edu/harvard/iq/dataverse/AbstractGlobalIdServiceBean.java:316-338 | a template with the given text and every other field null |
| DataCiteXml.MetadataTemplate.GenerateRelatedIdentifiers | src/main/java/edu/harvard/iq/dataverse/AbstractGlobalIdServiceBean.java:471-500 | the related block of the object as it stands; `datafileIdentifiers` is reset to an empty list exactly when a dataset lists its files |
| DataCiteXml.MetadataTemplate.GenerateXml | src/main/java/edu/harvard/iq/dataverse/AbstractGlobalIdServiceBean.java:407-469 | the template filled from the fields, with the related block of the object; the result is also kept in `xmlMetadata` |
| DataCiteXml.AfterFirstColon | src/main/java/edu/harvard/iq/dataverse/AbstractGlobalIdServiceBean.java:584 | everything after the first `:`, or the whole text when there is none |
| DataCiteXml.NewFilledTemplate | src/main/java/edu/harvard/iq/dataverse/AbstractGlobalIdServiceBean.java:583-604 | a fresh template whose fields hold the values set |
| DataCiteXml.GetMetadataFromDvObject | src/main/java/edu/harvard/iq/dataverse/AbstractGlobalIdServiceBean.java:573-609 | the document for the identifier after its first `:`, with the object's name as title, the publisher with its `":unav"` fallback, the map's year, and the object's description; authors, contacts and producers come from the owning dataset's latest version |

## Left out

- `Llama.java`: an HTTP pass-through to an external language-model server, with no logic of its own.
- Loading the template from the classpath resource (the no-argument constructor): the template text is a constructor argument instead.
- The `GlobalIdMetadataTemplate(String)` constructor: it depends on Jsoup HTML parsing, a foreign library.
- `generateFileIdentifiers`: it is not called from this class, and its index arithmetic depends on template text that is not part of this model.
- `setCreators(Util.getListFromStr(...))` in `getMetadataFromDvObject`: `Util` is not part of this model, and `generateXML` never reads `creators`.
- The bodies of `formatIdentifierString`, `testforNullTerminator`, `checkDOIAuthority`, `isGlobalIdLocallyUnique`, `alreadyExists`, `generateNewIdentifierByStoredProcedure`, `RandomStringUtils`, the settings service and `getRootDataverseName`: they are parameters (see above).
- Logging calls, and the check-then-persist race between concurrent requests: nothing in the class enforces atomicity.
- The `Long` counter of the dependent generator is unbounded (`nat`): overflow after 2^63 - 1 attempts is not modelled.
- Generators.GenerateIdentifierAsRandomString: also the independent and dependent generators and the dispatch methods. Each requires that its loop stops within the supplied draws or counter values, or, for the dependent counter, that some counter value passes. An endless loop is not modelled.
- DataCiteXml.MetadataTemplate.GenerateXml: requires the fields it dereferences to be set. With a field still null, the Java code throws NullPointerException; that path is not modelled.
- DataCiteXml.MetadataTemplate.GenerateXml: computes the related-identifier block before the creator and contributor blocks, where the Java code computes it after the contributor loops. The blocks read disjoint state, so the text is the same.
- DataCiteXml.GetMetadataFromDvObject: its result is stated on the objects as they stand when the call starts. The method changes nothing those objects hold.
- `String.trim` and `Long.toString` are modelled for the inputs the service gives them: `Long.toString` on non-negative values.
- JavaStrings.ToUpperCase: modelled on ASCII letters only. Java's `toUpperCase()` uses the default locale; in a Turkish locale `i` becomes U+0130. So the [A-Z0-9] guarantee of Generators.GenerateIdentifierAsRandomString holds only in a locale where upper-casing ASCII letters gives ASCII capitals.
- Generators.GenerateIdentifierAsRandomString: also GenerateIdentifierFromStoredProcedureIndependent and GenerateIdentifierFromStoredProcedureDependent. The `Registry` is one fixed pair of answers for a whole generation, while the Java code asks the local store and the registry again on every attempt (lines 266, 287 and 305); answers that change between attempts, such as a lookup that fails once and succeeds later, are not modelled. Generators.IsRandomResult and Generators.IsIndependentResult rely on this, and a candidate that passed because the registry lookup failed counts as unique.
- DataCiteXml.MetadataTemplate.GenerateRelatedIdentifiers: writes `getGlobalId()` (its `toString`) at lines 484 and 496 as `asString`, the text line 480 tests; the two are taken to be the same text. `GlobalId.toString` is not part of this model.
- DataCiteXml.FillTemplateFillsPlaceholders: stated for templates and values free of `$`, `{` and `}`. With such characters in a value, a later `replace` can act on the inserted text, as TitleTakesDescription and DescriptionKeepsTitleSlot show.
