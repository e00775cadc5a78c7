/**
  src/saucectl.ts and src/saucectl.js (the same two functions in both):
  `exportValue` writes a value as the whole content of a JSON file, and
  `updateExportedValue` merges new fields into what the file holds, with the
  new fields winning and any failure to read the file ignored. The file
  system is a map from path to entry; a regular file holds the value its
  JSON text parses to, or text that does not parse.
 */
module Saucectl {
  import opened Wrappers
  import opened JsValues

  /** Where the job details are exported by default (src/saucectl.js). */
  const DEFAULT_OUTPUT_FILEPATH: string := "/tmp/output.json"

  /** The content of a regular file: parsable JSON, or something `JSON.parse` (or the read) rejects. */
  datatype FileContent = Json(value: JsValue) | Unparsable

  /** A node `fs.statSync` finds: a regular file, or anything else (a directory, a socket). */
  datatype FileEntry = RegularFile(content: FileContent) | OtherNode

  /** `fileData` just before the merge: the parsed content `|| {}`, or undefined when anything failed. */
  function StoredValue(entry: Option<FileEntry>): (v: JsValue)
    ensures v == Undefined || Truthy(v)
    ensures v != Undefined <==> entry.Some? && entry.value.RegularFile? && entry.value.content.Json?
  {
    match entry
    case None => Undefined
    case Some(OtherNode) => Undefined
    case Some(RegularFile(Unparsable)) => Undefined
    case Some(RegularFile(Json(parsed))) => Or(parsed, Obj(map[]))
  }

  /** `{ ...fileData, ...data }`. */
  function Merged(fileData: JsValue, data: JsValue): (r: map<string, JsValue>)
    ensures r.Keys == Spread(fileData).Keys + Spread(data).Keys
    ensures forall k :: k in Spread(data) ==> r[k] == Spread(data)[k]
    ensures forall k :: k in Spread(fileData) && k !in Spread(data) ==> r[k] == Spread(fileData)[k]
  {
    Spread(fileData) + Spread(data)
  }

  /** The files `fs` sees. */
  class FileStore {
    var files: map<string, FileEntry>

    constructor (files: map<string, FileEntry>)
      ensures this.files == files
    {
      this.files := files;
    }

    /** What `statSync` and `readFileSync` find at `filepath`. */
    function Lookup(filepath: string): Option<FileEntry>
      reads this
    {
      if filepath in files then Some(files[filepath]) else None
    }

    /** exportValue: the file now holds exactly `payload`; no other file changes. */
    method ExportValue(filepath: string, payload: JsValue)
      modifies this
      ensures files == old(files)[filepath := RegularFile(Json(payload))]
    {
      files := files[filepath := RegularFile(Json(payload))];
    }

    /** updateExportedValue. */
    method UpdateExportedValue(filepath: string, data: JsValue)
      modifies this
      ensures files == old(files)[filepath := RegularFile(Json(Obj(Merged(StoredValue(old(Lookup(filepath))), data))))]
    {
      var fileData := Undefined;
      if filepath in files {
        var st := files[filepath];
        if st.RegularFile? && st.content.Json? {
          fileData := Or(st.content.value, Obj(map[]));
        }
      }
      fileData := Obj(Spread(fileData) + Spread(data));
      ExportValue(filepath, fileData);
    }
  }

  /** A missing file, a non-regular file or unparsable content leaves `data`'s own fields only. */
  lemma FailedReadGivesDataAlone(entry: Option<FileEntry>, data: JsValue)
    requires entry.None? || entry.value.OtherNode? || entry.value.content.Unparsable?
    ensures Merged(StoredValue(entry), data) == Spread(data)
  {
  }

  /** A file holding `null` (or any falsy JSON value) counts as `{}`. */
  lemma FalsyContentIsEmptyObject(parsed: JsValue, data: JsValue)
    requires !Truthy(parsed)
    ensures StoredValue(Some(RegularFile(Json(parsed)))) == Obj(map[])
    ensures Merged(StoredValue(Some(RegularFile(Json(parsed)))), data) == Spread(data)
  {
  }

  /** Updating a file that holds the object `old` with the object `data`: `data`'s fields win, the rest of `old` stays. */
  lemma UpdateOverObject(previous: map<string, JsValue>, data: map<string, JsValue>)
    ensures var r := Merged(StoredValue(Some(RegularFile(Json(Obj(previous))))), Obj(data));
      && r.Keys == previous.Keys + data.Keys
      && (forall k :: k in data ==> r[k] == data[k])
      && (forall k :: k in previous && k !in data ==> r[k] == previous[k])
  {
  }

  /** Updating twice with the same data is the same as updating once. */
  lemma UpdateIdempotent(entry: Option<FileEntry>, data: JsValue)
    ensures var once := Obj(Merged(StoredValue(entry), data));
      Merged(StoredValue(Some(RegularFile(Json(once)))), data) == once.props
  {
    var once := Merged(StoredValue(entry), data);
    assert Merged(Obj(once), data) == once;
  }
}
