/**
 * The release metadata store of src/http/utils.js: the version pointer
 * (versionInfo.json) and the previous-releases ledger (prevReleases.json).
 *
 * The file system is a map from path to stored file; a stored file either
 * parses to a JSON object or does not. Reads fail open to fixed defaults.
 * The date stamp that the source takes from the clock is a parameter.
 *
 * As written, updatePrevReleases refers to two undeclared names (`format`
 * at line 110 and `prevReleasesPath` at line 122), so every call rejects
 * with a ReferenceError before anything is validated or written. The model
 * gives the evidently intended logic: the date stamp is supplied, and the
 * ledger is written to the prevReleases file that getPrevReleasesInfo reads.
 */
module MetadataStore {
  import opened JsValues
  import opened Wrappers

  datatype StoredFile = Parsed(doc: Document) | Unparseable

  /** The document a failed ledger read returns: `{ releases: {}, msgType: 2 }`. */
  const EmptyLedger: Document := map["releases" := JObj(map[]), "msgType" := JNum(2)]

  const InvalidReleaseVersion: string := "Invalid release version"

  // ---------------------------------------------------------------------------
  // The version pointer

  /**
   * The document updateVersionInfo writes back: the stored pointer with `app`
   * set only when the supplied app is truthy and `installer` only when the
   * supplied installer is truthy.
   */
  function MergeVersionInfo(current: Document, app: Json, installer: Json): (r: Document)
    ensures "app" in r <==> Truthy(app) || "app" in current
    ensures "installer" in r <==> Truthy(installer) || "installer" in current
    ensures Truthy(app) ==> r["app"] == app
    ensures !Truthy(app) && "app" in current ==> r["app"] == current["app"]
    ensures Truthy(installer) ==> r["installer"] == installer
    ensures !Truthy(installer) && "installer" in current ==> r["installer"] == current["installer"]
    ensures forall k :: k != "app" && k != "installer" ==> (k in r <==> k in current)
    ensures forall k :: k in r && k != "app" && k != "installer" ==> r[k] == current[k]
  {
    var withApp := if Truthy(app) then current["app" := app] else current;
    if Truthy(installer) then withApp["installer" := installer] else withApp
  }

  /** With both arguments falsy, the pointer is written back exactly as it was read. */
  lemma MergeFalsyKeepsPointer(current: Document, app: Json, installer: Json)
    requires !Truthy(app) && !Truthy(installer)
    ensures MergeVersionInfo(current, app, installer) == current
  {
  }

  /** Merging the same values twice is merging them once. */
  lemma MergeIdempotent(current: Document, app: Json, installer: Json)
    ensures var once := MergeVersionInfo(current, app, installer);
      MergeVersionInfo(once, app, installer) == once
  {
  }

  // ---------------------------------------------------------------------------
  // The release ledger

  /** The note's keys include "EN" and at least one of "AR" and "FR". */
  predicate HasRequiredLocales(note: Document)
  {
    "EN" in note && ("AR" in note || "FR" in note)
  }

  /**
   * `Object.assign(releaseNote, { version, versionName, createdDate })`: the
   * supplied values win over same-named keys of the note.
   */
  function NewReleaseInfo(note: Document, version: string, versionName: string, createdDate: string): (r: Document)
    ensures r.Keys == note.Keys + {"version", "versionName", "createdDate"}
    ensures r["version"] == JStr(version)
    ensures r["versionName"] == JStr(versionName)
    ensures r["createdDate"] == JStr(createdDate)
    ensures forall k :: k in note && k != "version" && k != "versionName" && k != "createdDate" ==> r[k] == note[k]
  {
    note + map["version" := JStr(version), "versionName" := JStr(versionName), "createdDate" := JStr(createdDate)]
  }

  /** `_validateVersionInfo(releaseNote, newReleaseInfo)` */
  predicate ValidateVersionInfo(releaseNote: Document, newReleaseInfo: Document)
  {
    && HasRequiredLocales(releaseNote)
    && Truthy(Field(newReleaseInfo, "version"))
    && Truthy(Field(newReleaseInfo, "versionName"))
    && Truthy(Field(newReleaseInfo, "createdDate"))
  }

  /** A non-empty string under `key`. */
  predicate NonEmptyText(d: Document, key: string)
  {
    key in d && d[key].JStr? && d[key].s != ""
  }

  /** The invariant every ledger record is meant to keep. */
  predicate WellFormedRecord(rec: Document)
  {
    && "EN" in rec && ("AR" in rec || "FR" in rec)
    && NonEmptyText(rec, "version")
    && NonEmptyText(rec, "versionName")
    && NonEmptyText(rec, "createdDate")
  }

  /**
   * Validation accepts exactly the records that keep the ledger invariant, and
   * that is decided by the note's locales and the three supplied strings.
   * (Object.assign mutates the note, so the validator sees the record twice.)
   */
  lemma ValidationMeansWellFormed(note: Document, version: string, versionName: string, createdDate: string)
    ensures var rec := NewReleaseInfo(note, version, versionName, createdDate);
      && (ValidateVersionInfo(rec, rec) <==> WellFormedRecord(rec))
      && (WellFormedRecord(rec) <==>
            HasRequiredLocales(note) && version != "" && versionName != "" && createdDate != "")
  {
    var rec := NewReleaseInfo(note, version, versionName, createdDate);
    assert "EN" in rec <==> "EN" in note;
    assert "AR" in rec <==> "AR" in note;
    assert "FR" in rec <==> "FR" in note;
  }

  /** A note without "EN" is rejected, whatever other locales it has. */
  lemma MissingEnglishRejected(note: Document, version: string, versionName: string, createdDate: string)
    requires "EN" !in note
    ensures var rec := NewReleaseInfo(note, version, versionName, createdDate); !ValidateVersionInfo(rec, rec)
  {
    var rec := NewReleaseInfo(note, version, versionName, createdDate);
    assert "EN" !in rec;
  }

  /** `prevReleases[version] = newReleaseInfo`: a top-level key of the ledger object. */
  function InsertRelease(ledger: Document, version: string, record: Document): (r: Document)
    ensures r.Keys == ledger.Keys + {version}
    ensures r[version] == JObj(record)
    ensures forall k :: k in ledger && k != version ==> r[k] == ledger[k]
  {
    ledger[version := JObj(record)]
  }

  /** The versions in `keys` each hold a well-formed record. */
  ghost predicate RecordsWellFormed(ledger: Document, keys: set<string>)
  {
    forall k :: k in keys ==> k in ledger && ledger[k].JObj? && WellFormedRecord(ledger[k].fields)
  }

  /** Inserting a well-formed record keeps every earlier inserted record in place. */
  lemma InsertKeepsRecordsWellFormed(ledger: Document, keys: set<string>, version: string, record: Document)
    requires RecordsWellFormed(ledger, keys)
    requires WellFormedRecord(record)
    ensures RecordsWellFormed(InsertRelease(ledger, version, record), keys + {version})
  {
  }

  /**
   * The two documents as files, with the fail-open getters and the two
   * updaters that read a document, change it and write it back.
   */
  class ReleaseStore {
    const versionInfoFile: string
    const prevReleasesFile: string
    var files: map<string, StoredFile>

    ghost predicate Valid()
      reads this
    {
      versionInfoFile != prevReleasesFile
    }

    constructor (versionInfoFile: string, prevReleasesFile: string, files: map<string, StoredFile>)
      requires versionInfoFile != prevReleasesFile
      ensures Valid()
      ensures this.versionInfoFile == versionInfoFile && this.prevReleasesFile == prevReleasesFile
      ensures this.files == files
    {
      this.versionInfoFile := versionInfoFile;
      this.prevReleasesFile := prevReleasesFile;
      this.files := files;
    }

    /** getVersionInfo: a missing or unparseable file reads as `{}`. */
    function GetVersionInfo(): (d: Document)
      reads this
      ensures versionInfoFile in files && files[versionInfoFile].Parsed? ==> d == files[versionInfoFile].doc
      ensures !(versionInfoFile in files && files[versionInfoFile].Parsed?) ==> d == map[]
    {
      if versionInfoFile in files && files[versionInfoFile].Parsed? then files[versionInfoFile].doc else map[]
    }

    /** getPrevReleasesInfo: a missing or unparseable file reads as `{ releases: {}, msgType: 2 }`. */
    function GetPrevReleasesInfo(): (d: Document)
      reads this
      ensures prevReleasesFile in files && files[prevReleasesFile].Parsed? ==> d == files[prevReleasesFile].doc
      ensures !(prevReleasesFile in files && files[prevReleasesFile].Parsed?) ==>
        d == map["releases" := JObj(map[]), "msgType" := JNum(2)]
    {
      if prevReleasesFile in files && files[prevReleasesFile].Parsed? then files[prevReleasesFile].doc else EmptyLedger
    }

    /** updateVersionInfo: read the pointer, overwrite the truthy fields, write it back. */
    method UpdateVersionInfo(app: Json, installer: Json)
      requires Valid()
      modifies this
      ensures Valid()
      ensures files == old(files)[versionInfoFile := Parsed(MergeVersionInfo(old(GetVersionInfo()), app, installer))]
      ensures GetVersionInfo() == MergeVersionInfo(old(GetVersionInfo()), app, installer)
      ensures GetPrevReleasesInfo() == old(GetPrevReleasesInfo())
    {
      var versionInfo := GetVersionInfo();
      if Truthy(app) {
        versionInfo := versionInfo["app" := app];
      }
      if Truthy(installer) {
        versionInfo := versionInfo["installer" := installer];
      }
      files := files[versionInfoFile := Parsed(versionInfo)];
    }

    /**
     * updatePrevReleases: build the record, validate it, and store it under
     * `version` at the top level of the ledger; an invalid record rejects
     * with "Invalid release version" and nothing is written.
     */
    method UpdatePrevReleases(version: string, versionName: string, releaseNote: Document, createdDate: string)
      returns (outcome: Result<(), string>)
      requires Valid()
      modifies this
      ensures Valid()
      ensures outcome.Success? <==>
        HasRequiredLocales(releaseNote) && version != "" && versionName != "" && createdDate != ""
      ensures outcome.Failure? ==> outcome.error == InvalidReleaseVersion && files == old(files)
      ensures outcome.Success? ==>
        files == old(files)[prevReleasesFile :=
          Parsed(InsertRelease(old(GetPrevReleasesInfo()), version,
                               NewReleaseInfo(releaseNote, version, versionName, createdDate)))]
      ensures outcome.Success? ==>
        && GetPrevReleasesInfo()[version] == JObj(NewReleaseInfo(releaseNote, version, versionName, createdDate))
        && WellFormedRecord(NewReleaseInfo(releaseNote, version, versionName, createdDate))
        && GetVersionInfo() == old(GetVersionInfo())
    {
      var prevReleases := GetPrevReleasesInfo();
      var newReleaseInfo := NewReleaseInfo(releaseNote, version, versionName, createdDate);
      ValidationMeansWellFormed(releaseNote, version, versionName, createdDate);
      if ValidateVersionInfo(newReleaseInfo, newReleaseInfo) {
        prevReleases := prevReleases[version := JObj(newReleaseInfo)];
        files := files[prevReleasesFile := Parsed(prevReleases)];
        outcome := Success(());
      } else {
        outcome := Failure(InvalidReleaseVersion);
      }
    }
  }
}
