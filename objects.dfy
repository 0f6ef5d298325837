/**
 * The research objects (DvObject: a Dataset or a DataFile) the identifier service reads and
 * writes, and the settings it consults.
 */
module Objects {
  import opened Nullable
  import opened GlobalIds

  /** The two kinds of object that receive identifiers. */
  datatype DType = Dataset | DataFile

  /**
   * A DatasetAuthor: display name, identifier scheme (getIdType) and value (getIdValue), and
   * the display value of the affiliation when there is one.
   */
  datatype Author = Author(name: string, idType: Option<string>, idValue: Option<string>, affiliation: Option<string>)

  /** A contact or producer row of a dataset version: {name, affiliation}. */
  datatype Party = Party(name: string, affiliation: string)

  /** What the identifier service reads from a dataset's latest version. */
  datatype DatasetVersion = DatasetVersion(
    authors: seq<Author>,
    contacts: seq<Party>,
    producers: seq<Party>,
    descriptionPlainText: string)

  /**
   * A DvObject. The identifier service writes `identifier`, `protocol` and `authority`; all
   * other fields are set by the surrounding application and only read here. A DataFile has an
   * `owner` (its dataset); a Dataset has its `files` and `latestVersion`.
   */
  class DvObject {
    var dtype: DType
    var protocol: Option<string>
    var authority: Option<string>
    var identifier: Option<string>
    var owner: DvObject?
    var files: seq<DvObject>
    var currentName: string
    var authorString: string
    var yearPublishedCreated: string
    var targetUrl: string
    var description: Option<string>
    var latestVersion: DatasetVersion
  }

  /**
   * The text of the object's global id (GlobalId.asString): `protocol:authority/identifier`,
   * or the empty string while any of the three is unset.
   */
  function GlobalIdText(o: DvObject): string
    reads o
  {
    if o.protocol.Some? && o.authority.Some? && o.identifier.Some? then
      AsText(o.protocol.value, o.authority.value, o.identifier.value)
    else
      ""
  }

  /** The settings the service looks up (SettingsServiceBean.Key). */
  datatype SettingKey = Protocol | Authority | Shoulder | IdentifierGenerationStyle | DataFilePIDFormat

  /** A snapshot of the settings store: a key is either set to a value or absent. */
  type Settings = map<SettingKey, string>

  /** getValueForKey(key): null when the key is absent. */
  function ValueForKey(settings: Settings, key: SettingKey): Option<string>
  {
    if key in settings then Some(settings[key]) else None
  }

  /** getValueForKey(key, default). */
  function ValueForKeyOr(settings: Settings, key: SettingKey, default: string): string
  {
    if key in settings then settings[key] else default
  }
}
