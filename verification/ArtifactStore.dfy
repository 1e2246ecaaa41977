/** The artifact files of an initiative: scanning `docs/sdlc`, statuses, ids, and finding a file by id. */
module ArtifactStore {
  import opened Text
  import opened Sorting
  import LineEndings
  import opened ControlText

  datatype ArtifactStatus = DRAFT | VALIDATED | FREEZE_PENDING | FROZEN | HALTED | FAULTED

  function StatusText(s: ArtifactStatus): string {
    match s
    case DRAFT => "DRAFT"
    case VALIDATED => "VALIDATED"
    case FREEZE_PENDING => "FREEZE_PENDING"
    case FROZEN => "FROZEN"
    case HALTED => "HALTED"
    case FAULTED => "FAULTED"
  }

  function CanonChar(c: char): char {
    if 'a' <= c <= 'z' then (c as int - 'a' as int + 'A' as int) as char else if c == ' ' then '_' else c
  }

  /** `upper().replace(" ", "_")` */
  function Canon(s: string): string { if s == "" then "" else [CanonChar(s[0])] + Canon(s[1..]) }

  /** A status cell as the readers take it; anything unknown is a draft. */
  function ParseStatus(raw: string): ArtifactStatus {
    var c := Canon(raw);
    if c == "VALIDATED" then VALIDATED else if c == "FREEZE_PENDING" then FREEZE_PENDING
    else if c == "FROZEN" then FROZEN else if c == "HALTED" then HALTED else if c == "FAULTED" then FAULTED else DRAFT
  }

  lemma {:induction false} CanonFixed(s: string)
    requires forall i :: 0 <= i < |s| ==> CanonChar(s[i]) == s[i]
    ensures Canon(s) == s
  {
    if s != "" { CanonFixed(s[1..]); assert [s[0]] + s[1..] == s; }
  }

  /** A status that is written reads back. */
  lemma StatusReads(s: ArtifactStatus)
    ensures ParseStatus(StatusText(s)) == s
  {
    hide Canon;
    var t := StatusText(s);
    assert forall i :: 0 <= i < |t| ==> CanonChar(t[i]) == t[i];
    CanonFixed(t);
    StatusTextsDiffer(s);
  }

  lemma StatusTextsDiffer(s: ArtifactStatus)
    ensures var c := StatusText(s);
            (if c == "VALIDATED" then VALIDATED else if c == "FREEZE_PENDING" then FREEZE_PENDING
             else if c == "FROZEN" then FROZEN else if c == "HALTED" then HALTED else if c == "FAULTED" then FAULTED else DRAFT) == s
  {
    assert "VALIDATED"[0] == 'V' && "FREEZE_PENDING"[2] == 'E' && "FROZEN"[2] == 'O' && "HALTED"[0] == 'H' && "FAULTED"[1] == 'A' && "DRAFT"[0] == 'D';
  }

  // ---- titles in use ----

  const TITLES: set<LabelPattern> :=
    {ArtifactId, Exact("Artifact ID"), Exact("Status"), Exact("Last Validation"), Exact("Owner"), Exact("Frozen By"), Exact("Frozen Date")}

  // ---- reading one file ----

  /** The files by name, each with its characters on disk. */
  type Docs = map<string, string>

  /** `read_text`: line endings folded. */
  function ReadText(file: string): string { LineEndings.Universal(file) }

  function IdOf(file: string): Option<string> { ReadCell(ReadText(file), ArtifactId) }

  function StatusOf(file: string): Option<ArtifactStatus> {
    var r := ReadCell(ReadText(file), Exact("Status"));
    if r.Some? then Some(ParseStatus(r.value)) else None
  }

  /** The file after `write_artifact_status`. */
  function WithStatus(file: string, s: ArtifactStatus): string { WriteCell(ReadText(file), Exact("Status"), StatusText(s)) }

  // ---- scanning the directory ----

  function Note(m: map<string, ArtifactStatus>, d: string): map<string, ArtifactStatus> {
    if IdOf(d).Some? && StatusOf(d).Some? then m[IdOf(d).value := StatusOf(d).value] else m
  }

  /** Files later in the order overwrite earlier ones with the same id. */
  function StatusesOf(docs: Docs, names: seq<string>): map<string, ArtifactStatus>
    requires forall n :: n in names ==> n in docs
  {
    if names == [] then map[] else
      assert names[|names| - 1] in names;
      Note(StatusesOf(docs, names[..|names| - 1]), docs[names[|names| - 1]])
  }

  ghost function Files(docs: Docs): seq<string> { Sorted(docs.Keys) }

  lemma FilesAre(docs: Docs)
    ensures forall n :: n in Files(docs) <==> n in docs
    ensures forall i, j :: 0 <= i < j < |Files(docs)| ==> Files(docs)[i] != Files(docs)[j]
  {
    SortedElements(docs.Keys);
  }

  /** `read_frozen_artifacts` */
  ghost function Statuses(docs: Docs): map<string, ArtifactStatus> {
    FilesAre(docs);
    StatusesOf(docs, Files(docs))
  }

  method ReadFrozenArtifacts(docs: Docs) returns (results: map<string, ArtifactStatus>)
    ensures results == Statuses(docs)
  {
    hide IdOf, StatusOf, Sorted;
    results := map[];
    var names := Sort(docs.Keys);
    FilesAre(docs);
    for i := 0 to |names|
      invariant forall n :: n in names[..i] ==> n in docs
      invariant results == StatusesOf(docs, names[..i])
    {
      var d := docs[names[i]];
      assert names[..i + 1][..i] == names[..i] && names[..i + 1][i] == names[i];
      if IdOf(d).Some? && StatusOf(d).Some? {
        results := results[IdOf(d).value := StatusOf(d).value];
      }
    }
    assert names[..|names|] == names;
  }

  /** First file in the order whose id row reads `id`. */
  function FindIn(docs: Docs, names: seq<string>, id: string): Option<string>
    requires forall n :: n in names ==> n in docs
  {
    if names == [] then None
    else if (assert names[0] in names; IdOf(docs[names[0]]) == Some(id)) then Some(names[0])
    else FindIn(docs, names[1..], id)
  }

  /** `find_artifact_path`, and the search inside `write_artifact_status`. */
  ghost function FindFile(docs: Docs, id: string): Option<string> {
    FilesAre(docs);
    FindIn(docs, Files(docs), id)
  }

  method FindArtifactPath(docs: Docs, id: string) returns (r: Option<string>)
    ensures r == FindFile(docs, id)
  {
    hide IdOf, Sorted;
    var names := Sort(docs.Keys);
    FilesAre(docs);
    assert names[0..] == names;
    for i := 0 to |names|
      invariant forall n :: n in names[i..] ==> n in docs
      invariant FindIn(docs, names, id) == FindIn(docs, names[i..], id)
    {
      assert names[i..][0] == names[i] && names[i..][1..] == names[i + 1..];
      if IdOf(docs[names[i]]) == Some(id) {
        return Some(names[i]);
      }
    }
    return None;
  }

  // ---- directories whose files carry different ids ----

  predicate UniqueIds(docs: Docs) {
    && (forall f :: f in docs ==> IdOf(docs[f]).Some? && StatusOf(docs[f]).Some?)
    && forall f, g :: f in docs && g in docs && f != g ==> IdOf(docs[f]) != IdOf(docs[g])
  }

  lemma {:induction false} FindInFinds(docs: Docs, names: seq<string>, id: string)
    requires forall n :: n in names ==> n in docs
    ensures var r := FindIn(docs, names, id);
            && (r.Some? ==> r.value in names && IdOf(docs[r.value]) == Some(id))
            && (r.None? ==> forall n :: n in names ==> IdOf(docs[n]) != Some(id))
  {
    hide IdOf;
    if names != [] {
      assert names[0] in names;
      FindInFinds(docs, names[1..], id);
      assert forall n :: n in names ==> n == names[0] || n in names[1..];
    }
  }

  /** The search finds the one file that has the id. */
  lemma FindFileIs(docs: Docs, id: string)
    requires UniqueIds(docs)
    ensures var r := FindFile(docs, id);
            && (r.Some? ==> r.value in docs && IdOf(docs[r.value]) == Some(id))
            && (forall f :: f in docs && IdOf(docs[f]) == Some(id) ==> r == Some(f))
  {
    hide IdOf, StatusOf;
    FilesAre(docs);
    FindInFinds(docs, Files(docs), id);
  }

  lemma {:induction false} StatusesOfAre(docs: Docs, names: seq<string>, id: string)
    requires UniqueIds(docs) && forall n :: n in names ==> n in docs
    requires forall i, j :: 0 <= i < j < |names| ==> names[i] != names[j]
    ensures var m := StatusesOf(docs, names);
            && (forall f :: f in names && IdOf(docs[f]) == Some(id) ==> id in m && Some(m[id]) == StatusOf(docs[f]))
            && (id in m ==> exists f :: f in names && IdOf(docs[f]) == Some(id))
  {
    hide IdOf, StatusOf;
    if names != [] {
      var front, last := names[..|names| - 1], names[|names| - 1];
      assert last in names;
      StatusesOfAre(docs, front, id);
      assert forall n :: n in names <==> n in front || n == last;
    }
  }

  /** The scan reports, for each id, the status of the one file that has it. */
  lemma StatusesAre(docs: Docs, id: string)
    requires UniqueIds(docs)
    ensures var m := Statuses(docs);
            && (forall f :: f in docs && IdOf(docs[f]) == Some(id) ==> id in m && Some(m[id]) == StatusOf(docs[f]))
            && (id in m ==> exists f :: f in docs && IdOf(docs[f]) == Some(id))
  {
    hide IdOf, StatusOf;
    FilesAre(docs);
    StatusesOfAre(docs, Files(docs), id);
  }
}
