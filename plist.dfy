/** Property-list documents and the display-name patch: the document's entry
    under "dict" must be a dictionary, and its `CFBundleDisplayName` is set. */
module Plist {
  import opened Results

  datatype PlistValue =
    | PString(s: string)
    | PArray(items: seq<PlistValue>)
    | PDict(entries: map<string, PlistValue>)

  /** A document as the reader hands it over: a top-level dictionary. */
  type PlistDoc = map<string, PlistValue>

  /** The stored documents, by path. */
  type Files = map<string, PlistDoc>

  const DictKey: string := "dict"
  const DisplayNameKey: string := "CFBundleDisplayName"

  predicate HasDict(doc: PlistDoc) {
    DictKey in doc && doc[DictKey].PDict?
  }

  /** Reference definition: `doc'` is `doc` with only the nested display name set. */
  ghost predicate DisplayNamePatched(doc: PlistDoc, name: string, doc': PlistDoc) {
    && HasDict(doc) && HasDict(doc')
    && doc'.Keys == doc.Keys
    && (forall k :: k in doc && k != DictKey ==> doc'[k] == doc[k])
    && var inner, inner' := doc[DictKey].entries, doc'[DictKey].entries;
       && inner'.Keys == inner.Keys + {DisplayNameKey}
       && inner'[DisplayNameKey] == PString(name)
       && forall k :: k in inner && k != DisplayNameKey ==> inner'[k] == inner[k]
  }

  /** `infoPlist["dict"]["CFBundleDisplayName"] = name` on a document that has
      a dictionary to assign into. */
  function WithDisplayName(doc: PlistDoc, name: string): (r: PlistDoc)
    requires HasDict(doc)
    ensures HasDict(r)
  {
    doc[DictKey := PDict(doc[DictKey].entries[DisplayNameKey := PString(name)])]
  }

  /** The display-name assignment, failing when there is no dictionary under "dict". */
  function SetDisplayName(doc: PlistDoc, name: string): (r: Result<PlistDoc>)
    ensures r.Ok? <==> HasDict(doc)
    ensures r.Err? ==> r.error == NoDictEntry
    ensures r.Ok? ==> DisplayNamePatched(doc, name, r.value)
  {
    if HasDict(doc) then Ok(WithDisplayName(doc, name)) else Err(NoDictEntry)
  }

  /** Both directions: the patch computes exactly the reference result. */
  lemma SetDisplayNameIff(doc: PlistDoc, name: string, doc': PlistDoc)
    ensures SetDisplayName(doc, name) == Ok(doc') <==> DisplayNamePatched(doc, name, doc')
  {
    if DisplayNamePatched(doc, name, doc') {
      var r := WithDisplayName(doc, name);
      var inner, inner' := r[DictKey].entries, doc'[DictKey].entries;
      assert inner == inner';
      assert r[DictKey] == doc'[DictKey];
      assert r == doc';
    }
  }

  /** Patching a patched document again changes nothing. */
  lemma WithDisplayNameIdempotent(doc: PlistDoc, name: string)
    requires HasDict(doc)
    ensures WithDisplayName(WithDisplayName(doc, name), name) == WithDisplayName(doc, name)
  {
    var d1 := WithDisplayName(doc, name);
    var inner := d1[DictKey].entries;
    assert inner[DisplayNameKey := PString(name)] == inner;
    assert d1[DictKey := PDict(inner)] == d1;
  }

  lemma SetDisplayNameIdempotent(doc: PlistDoc, name: string)
    requires HasDict(doc)
    ensures SetDisplayName(doc, name).Ok?
    ensures SetDisplayName(SetDisplayName(doc, name).value, name) == SetDisplayName(doc, name)
  {
    WithDisplayNameIdempotent(doc, name);
  }

  /** Reading, patching and writing back the document stored at `path`. */
  function PatchFile(files: Files, path: string, name: string): (r: Result<Files>)
    ensures r.Ok? <==> path in files && HasDict(files[path])
    ensures r.Err? ==> r.error == (if path in files then NoDictEntry else PlistNotFound(path))
    ensures r.Ok? ==> r.value == files[path := WithDisplayName(files[path], name)]
  {
    if path !in files then Err(PlistNotFound(path))
    else if !HasDict(files[path]) then Err(NoDictEntry)
    else Ok(files[path := WithDisplayName(files[path], name)])
  }

  /** What the write-back promises: the same files, the one at `path` with its
      display name set and nothing else in it changed, every other file as it was. */
  lemma PatchFileEffect(files: Files, path: string, name: string)
    requires PatchFile(files, path, name).Ok?
    ensures var files' := PatchFile(files, path, name).value;
      && files'.Keys == files.Keys
      && DisplayNamePatched(files[path], name, files'[path])
      && forall q :: q in files && q != path ==> files'[q] == files[q]
  {
  }

  /** The property-list files on disk, read and written whole. */
  class PlistStore {
    var docs: Files

    constructor (docs: Files)
      ensures this.docs == docs
    {
      this.docs := docs;
    }

    /** Reading fails when no document is stored at `path`. */
    method Read(path: string) returns (r: Result<PlistDoc>)
      ensures path in docs ==> r == Ok(docs[path])
      ensures path !in docs ==> r == Err(PlistNotFound(path))
    {
      if path in docs {
        r := Ok(docs[path]);
      } else {
        r := Err(PlistNotFound(path));
      }
    }

    /** Writing replaces the document at `path` and no other. */
    method Write(path: string, doc: PlistDoc)
      modifies this
      ensures docs == old(docs)[path := doc]
    {
      docs := docs[path := doc];
    }

    /** Read the document at `path`, set its display name in place, write it back. */
    method PatchDisplayName(path: string, name: string) returns (err: Option<Error>)
      modifies this
      ensures PatchFile(old(docs), path, name).Ok? ==> err == None && docs == PatchFile(old(docs), path, name).value
      ensures PatchFile(old(docs), path, name).Err? ==> err == Some(PatchFile(old(docs), path, name).error) && docs == old(docs)
    {
      var read := Read(path);
      if read.Err? {
        return Some(read.error);
      }
      var doc := read.value;
      if DictKey !in doc || !doc[DictKey].PDict? {
        return Some(NoDictEntry);
      }
      doc := doc[DictKey := PDict(doc[DictKey].entries[DisplayNameKey := PString(name)])];
      Write(path, doc);
      err := None;
    }
  }
}
