/** The files of a new version: the checks on the request, and the rows then written for it. */
module VersionFiles {
  import opened Text
  import opened Storage

  datatype Algorithm = Sha1 | Sha256 | Sha512

  datatype HashInput = HashInput(algorithm: string, value: string)

  datatype FileInput = FileInput(
    fileName: string, primary: bool, sizeBytes: JsNumber, url: string, hashes: Option<seq<HashInput>>)

  datatype Error =
    | NoFiles | TooManyFiles | NoPrimary | SeveralPrimaries
    | FileNameRequired | FileNotAnArchive | NameRepeated | UrlRequired | UrlElsewhere | FileSizeNotPositive
    | TooManyHashes | UnknownAlgorithm | AlgorithmRepeated | HashValueRequired
    | KeyTaken | NotAnInteger

  const MAX_VERSION_FILES := 8
  const MAX_FILE_HASHES := 8

  function AlgorithmFrom(text: string): Option<Algorithm> {
    var name := Upper(Trim(text));
    if name == "SHA1" then Some(Sha1)
    else if name == "SHA256" then Some(Sha256)
    else if name == "SHA512" then Some(Sha512)
    else None
  }

  // ---------- the request as the checks read it ----------

  datatype Hash = Hash(algorithm: Option<Algorithm>, value: string)

  datatype File = File(
    name: string, archive: bool, primary: bool, url: string, ownUrl: bool, size: JsNumber, hashes: seq<Hash>)

  /** Where release files must be: the parser, the public base and the project's slug. */
  datatype Place = Place(parse: UrlParser, baseUrl: string, slug: string)

  function HashOf(input: HashInput): Hash {
    Hash(AlgorithmFrom(input.algorithm), Trim(input.value))
  }

  function HashesOf(inputs: Option<seq<HashInput>>): (r: seq<Hash>)
    ensures inputs.Some? ==> |r| == |inputs.value|
    ensures inputs.Some? ==> forall i :: 0 <= i < |r| ==> r[i] == HashOf(inputs.value[i])
  {
    match inputs
    case None => []
    case Some(list) => seq(|list|, i requires 0 <= i < |list| => HashOf(list[i]))
  }

  function FileOf(input: FileInput, place: Place): File {
    var name, url := Trim(input.fileName), Trim(input.url);
    File(name, AllowedExtension(FileExtension(name)), input.primary, url,
         IsProjectVersionFileUrl(place.parse, url, place.baseUrl, place.slug), input.sizeBytes, HashesOf(input.hashes))
  }

  function FilesOf(inputs: seq<FileInput>, place: Place): (r: seq<File>)
    ensures |r| == |inputs|
    ensures forall i :: 0 <= i < |r| ==> r[i] == FileOf(inputs[i], place)
  {
    seq(|inputs|, i requires 0 <= i < |inputs| => FileOf(inputs[i], place))
  }

  // ---------- what is accepted ----------

  ghost predicate ValidHashes(hashes: seq<Hash>) {
    && (forall i :: 0 <= i < |hashes| ==> hashes[i].algorithm.Some? && hashes[i].value != [])
    && (forall i, j :: 0 <= i < j < |hashes| ==> hashes[i].algorithm != hashes[j].algorithm)
  }

  ghost predicate ValidFile(file: File) {
    && file.name != [] && file.archive && file.url != [] && file.ownUrl
    && IsSafeInteger(file.size) && file.size.value.Floor > 0
    && |file.hashes| <= MAX_FILE_HASHES && ValidHashes(file.hashes)
  }

  ghost predicate DistinctNames(files: seq<File>) {
    forall i, j :: 0 <= i < j < |files| ==> files[i].name != files[j].name
  }

  ghost predicate OnlyPrimary(files: seq<File>, p: nat) {
    forall i :: 0 <= i < |files| ==> (files[i].primary <==> i == p)
  }

  ghost predicate Valid(files: seq<File>) {
    && 1 <= |files| <= MAX_VERSION_FILES
    && (exists p :: 0 <= p < |files| && OnlyPrimary(files, p))
    && DistinctNames(files)
    && forall i :: 0 <= i < |files| ==> ValidFile(files[i])
  }

  // ---------- the first thing found wrong ----------

  function Primaries(files: seq<File>): nat {
    if files == [] then 0 else (if files[0].primary then 1 else 0) + Primaries(files[1..])
  }

  function HashesError(hashes: seq<Hash>, seen: set<Algorithm>): Option<Error> {
    if hashes == [] then None
    else if hashes[0].algorithm.None? then Some(UnknownAlgorithm)
    else if hashes[0].algorithm.value in seen then Some(AlgorithmRepeated)
    else if hashes[0].value == [] then Some(HashValueRequired)
    else HashesError(hashes[1..], seen + {hashes[0].algorithm.value})
  }

  function FileError(file: File, seen: set<string>): Option<Error> {
    if file.name == [] then Some(FileNameRequired)
    else if !file.archive then Some(FileNotAnArchive)
    else if file.name in seen then Some(NameRepeated)
    else if file.url == [] then Some(UrlRequired)
    else if !file.ownUrl then Some(UrlElsewhere)
    else if !IsSafeInteger(file.size) || file.size.value.Floor <= 0 then Some(FileSizeNotPositive)
    else if |file.hashes| > MAX_FILE_HASHES then Some(TooManyHashes)
    else HashesError(file.hashes, {})
  }

  function FilesError(files: seq<File>, seen: set<string>): Option<Error> {
    if files == [] then None
    else if FileError(files[0], seen).Some? then FileError(files[0], seen)
    else FilesError(files[1..], seen + {files[0].name})
  }

  function RequestError(files: seq<File>): Option<Error> {
    if files == [] then Some(NoFiles)
    else if |files| > MAX_VERSION_FILES then Some(TooManyFiles)
    else if Primaries(files) == 0 then Some(NoPrimary)
    else if Primaries(files) > 1 then Some(SeveralPrimaries)
    else FilesError(files, {})
  }

  // ---------- the nested loops ----------

  method ValidateVersionFiles(inputs: seq<FileInput>, place: Place) returns (error: Option<Error>)
    ensures error == RequestError(FilesOf(inputs, place))
  {
    if inputs == [] {
      return Some(NoFiles);
    }
    if |inputs| > MAX_VERSION_FILES {
      return Some(TooManyFiles);
    }
    var primaries := CountPrimaries(inputs, FilesOf(inputs, place));
    if primaries == 0 {
      return Some(NoPrimary);
    }
    if primaries > 1 {
      return Some(SeveralPrimaries);
    }
    error := ValidateEach(inputs, place, FilesOf(inputs, place));
  }

  method CountPrimaries(inputs: seq<FileInput>, ghost files: seq<File>) returns (primaries: nat)
    requires |files| == |inputs| && forall i :: 0 <= i < |files| ==> files[i].primary == inputs[i].primary
    ensures primaries == Primaries(files)
  {
    primaries := 0;
    for i := 0 to |inputs|
      invariant primaries + Primaries(files[i..]) == Primaries(files)
    {
      assert files[i..][1..] == files[i + 1..];
      if inputs[i].primary {
        primaries := primaries + 1;
      }
    }
  }

  method ValidateEach(inputs: seq<FileInput>, place: Place, ghost files: seq<File>) returns (error: Option<Error>)
    requires |files| == |inputs| && forall i :: 0 <= i < |files| ==> files[i] == FileOf(inputs[i], place)
    ensures error == FilesError(files, {})
  {
    var fileNames: set<string> := {};
    for i := 0 to |inputs|
      invariant FilesError(files[i..], fileNames) == FilesError(files, {})
    {
      assert files[i..][1..] == files[i + 1..];
      error := ValidateFile(inputs[i], fileNames, place);
      if error.Some? {
        return;
      }
      var fileName := Trim(inputs[i].fileName);
      assert fileName == files[i].name;
      fileNames := fileNames + {fileName};
    }
    return None;
  }

  method ValidateFile(input: FileInput, fileNames: set<string>, place: Place) returns (error: Option<Error>)
    ensures error == FileError(FileOf(input, place), fileNames)
  {
    ghost var file := FileOf(input, place);
    var fileName := Trim(input.fileName);
    if fileName == [] {
      return Some(FileNameRequired);
    }
    var archive := AllowedExtension(FileExtension(fileName));
    assert archive == file.archive;
    if !archive {
      return Some(FileNotAnArchive);
    }
    if fileName in fileNames {
      return Some(NameRepeated);
    }
    var url := Trim(input.url);
    if url == [] {
      return Some(UrlRequired);
    }
    var ownUrl := IsProjectVersionFileUrl(place.parse, url, place.baseUrl, place.slug);
    assert ownUrl == file.ownUrl;
    if !ownUrl {
      return Some(UrlElsewhere);
    }
    if !IsSafeInteger(input.sizeBytes) || input.sizeBytes.value.Floor <= 0 {
      return Some(FileSizeNotPositive);
    }
    if input.hashes.Some? && |input.hashes.value| > MAX_FILE_HASHES {
      return Some(TooManyHashes);
    }
    if input.hashes.Some? {
      error := ValidateHashes(input.hashes.value, file.hashes);
    } else {
      error := None;
    }
  }

  method ValidateHashes(inputs: seq<HashInput>, ghost hashes: seq<Hash>) returns (error: Option<Error>)
    requires |hashes| == |inputs| && forall i :: 0 <= i < |hashes| ==> hashes[i] == HashOf(inputs[i])
    ensures error == HashesError(hashes, {})
  {
    var algorithms: set<Algorithm> := {};
    for i := 0 to |inputs|
      invariant HashesError(hashes[i..], algorithms) == HashesError(hashes, {})
    {
      assert hashes[i..][1..] == hashes[i + 1..];
      var algorithm := AlgorithmFrom(inputs[i].algorithm);
      assert algorithm == hashes[i].algorithm;
      if algorithm.None? {
        return Some(UnknownAlgorithm);
      }
      if algorithm.value in algorithms {
        return Some(AlgorithmRepeated);
      }
      algorithms := algorithms + {algorithm.value};
      if Trim(inputs[i].value) == [] {
        return Some(HashValueRequired);
      }
    }
    return None;
  }

  // ---------- accepted means valid ----------

  lemma {:induction false} HashesAccepted(hashes: seq<Hash>, seen: set<Algorithm>)
    ensures HashesError(hashes, seen).None?
      <==> ValidHashes(hashes) && forall i :: 0 <= i < |hashes| ==> hashes[i].algorithm.value !in seen
  {
    if hashes != [] {
      var head, rest := hashes[0], hashes[1..];
      assert hashes == [head] + rest;
      if head.algorithm.Some? {
        HashesAccepted(rest, seen + {head.algorithm.value});
      }
    }
  }

  lemma FileAccepted(file: File, seen: set<string>)
    ensures FileError(file, seen).None? <==> ValidFile(file) && file.name !in seen
  {
    HashesAccepted(file.hashes, {});
  }

  lemma {:induction false} FilesAccepted(files: seq<File>, seen: set<string>)
    ensures FilesError(files, seen).None?
      <==> DistinctNames(files) && forall i :: 0 <= i < |files| ==> ValidFile(files[i]) && files[i].name !in seen
  {
    if files != [] {
      var head, rest := files[0], files[1..];
      assert files == [head] + rest;
      FileAccepted(head, seen);
      FilesAccepted(rest, seen + {head.name});
    }
  }

  lemma {:induction false} PrimariesCounted(files: seq<File>)
    ensures Primaries(files) == 0 <==> forall i :: 0 <= i < |files| ==> !files[i].primary
    ensures Primaries(files) == 1 <==> exists p :: 0 <= p < |files| && OnlyPrimary(files, p)
  {
    if files != [] {
      var head, rest := files[0], files[1..];
      assert files == [head] + rest;
      PrimariesCounted(rest);
      if p :| 0 <= p < |files| && OnlyPrimary(files, p) {
        if p > 0 {
          assert OnlyPrimary(rest, p - 1);
        }
      }
      if head.primary && Primaries(rest) == 0 {
        assert OnlyPrimary(files, 0);
      }
      if p :| !head.primary && 0 <= p < |rest| && OnlyPrimary(rest, p) {
        assert OnlyPrimary(files, p + 1);
      }
    }
  }

  /** The checks accept exactly the valid requests. */
  lemma AcceptsExactlyValid(files: seq<File>)
    ensures RequestError(files).None? <==> Valid(files)
  {
    PrimariesCounted(files);
    FilesAccepted(files, {});
  }

  // ---------- the rows ----------

  datatype FileRow = FileRow(
    versionId: string, fileName: string, isPrimary: bool, key: string, sizeBytes: int, url: string)

  /** The hash rows of one file, by algorithm: file and algorithm together are the primary key. */
  type HashRow = map<Algorithm, string>

  function RowOf(versionId: string, file: File): FileRow
    requires file.size.Finite?
  {
    FileRow(versionId, file.name, file.primary, versionId + "/" + file.name, file.size.value.Floor, file.url)
  }

  /** The rows to be written for a request, in its order. */
  function Rows(versionId: string, files: seq<File>): (rows: seq<FileRow>)
    requires forall i :: 0 <= i < |files| ==> files[i].size.Finite?
    ensures |rows| == |files|
    ensures forall i :: 0 <= i < |rows| ==> rows[i] == RowOf(versionId, files[i])
  {
    seq(|files|, i requires 0 <= i < |files| => RowOf(versionId, files[i]))
  }

  predicate Known(hashes: seq<Hash>) {
    forall i :: 0 <= i < |hashes| ==> hashes[i].algorithm.Some?
  }

  /** One hash row for every algorithm supplied; a later value replaces an earlier one. */
  function HashRows(hashes: seq<Hash>): HashRow
    requires Known(hashes)
  {
    if hashes == [] then map[]
    else
      var last := hashes[|hashes| - 1];
      HashRows(hashes[..|hashes| - 1])[last.algorithm.value := Lower(last.value)]
  }

  function AllHashRows(files: seq<File>): (r: seq<HashRow>)
    requires forall i :: 0 <= i < |files| ==> Known(files[i].hashes)
    ensures |r| == |files|
    ensures forall i :: 0 <= i < |r| ==> r[i] == HashRows(files[i].hashes)
  {
    seq(|files|, i requires 0 <= i < |files| => HashRows(files[i].hashes))
  }

  /** The first hash that cannot be stored. */
  function HashListError(hashes: seq<Hash>): Option<Error> {
    if hashes == [] then None
    else if hashes[0].algorithm.None? then Some(UnknownAlgorithm)
    else if hashes[0].value == [] then Some(HashValueRequired)
    else HashListError(hashes[1..])
  }

  /** Why a file cannot be stored beside the given rows. */
  function StoreError(rows: seq<FileRow>, versionId: string, file: File): Option<Error> {
    if !IsInteger(file.size) then Some(NotAnInteger)
    else if exists i :: 0 <= i < |rows| && rows[i].key == versionId + "/" + file.name then Some(KeyTaken)
    else HashListError(file.hashes)
  }

  /** What a request must be for the inserts to go through, apart from what else is in the tables. */
  ghost predicate Storable(files: seq<File>) {
    DistinctNames(files) && forall i :: 0 <= i < |files| ==> IsInteger(files[i].size) && ValidHashes(files[i].hashes)
  }

  /** The rows of a table whose keys are made from version and name, no version with a slash in it. */
  ghost predicate KeysMade(rows: seq<FileRow>) {
    forall i :: 0 <= i < |rows| ==>
      '/' !in rows[i].versionId && rows[i].key == rows[i].versionId + "/" + rows[i].fileName
  }

  ghost predicate KeysDistinct(rows: seq<FileRow>) {
    forall i, j :: 0 <= i < j < |rows| ==> rows[i].key != rows[j].key
  }

  /** The tables; a file's id is its position. `updates` counts the hash upserts that found a row. */
  class FileStore {
    var files: seq<FileRow>
    var hashes: seq<HashRow>
    var updates: nat

    ghost predicate Valid()
      reads this
    {
      KeysMade(files) && KeysDistinct(files) && |hashes| == |files|
    }

    /** Inserts a file row; a key already in the table throws. */
    method InsertFile(row: FileRow) returns (inserted: bool)
      modifies this`files, this`hashes
      ensures inserted <==> forall i :: 0 <= i < |old(files)| ==> old(files)[i].key != row.key
      ensures files == if inserted then old(files) + [row] else old(files)
      ensures hashes == if inserted then old(hashes) + [map[]] else old(hashes)
    {
      inserted := !exists i :: 0 <= i < |files| && files[i].key == row.key;
      if inserted {
        files, hashes := files + [row], hashes + [map[]];
      }
    }

    method UpsertHash(fileId: nat, algorithm: Algorithm, value: string)
      requires fileId < |hashes|
      modifies this`hashes, this`updates
      ensures hashes == old(hashes)[fileId := old(hashes)[fileId][algorithm := value]]
      ensures updates == old(updates) + if algorithm in old(hashes)[fileId] then 1 else 0
    {
      if algorithm in hashes[fileId] {
        updates := updates + 1;
      }
      hashes := hashes[fileId := hashes[fileId][algorithm := value]];
    }

    /** Every repeated algorithm would take the update branch once. */
    method CreateHashes(fileId: nat, list: seq<Hash>) returns (error: Option<Error>)
      requires fileId < |hashes| && hashes[fileId] == map[]
      modifies this`hashes, this`updates
      ensures error == HashListError(list)
      ensures error.None? ==>
        && Known(list) && hashes == old(hashes)[fileId := HashRows(list)]
        && updates == old(updates) + |list| - |HashRows(list)|
    {
      for i := 0 to |list|
        invariant Known(list[..i]) && HashListError(list[i..]) == HashListError(list)
        invariant hashes == old(hashes)[fileId := HashRows(list[..i])]
        invariant updates == old(updates) + i - |HashRows(list[..i])|
      {
        assert list[i..][1..] == list[i + 1..];
        if list[i].algorithm.None? {
          return Some(UnknownAlgorithm);
        }
        if list[i].value == [] {
          return Some(HashValueRequired);
        }
        NextHash(list, i);
        UpsertHash(fileId, list[i].algorithm.value, Lower(list[i].value));
      }
      assert list[..|list|] == list;
      return None;
    }

    method CreateFile(versionId: string, file: File) returns (fileId: nat, error: Option<Error>)
      requires Valid() && '/' !in versionId
      modifies this
      ensures error == StoreError(old(files), versionId, file)
      ensures error.None? ==>
        && fileId == |old(files)| && Valid() && file.size.Finite? && Known(file.hashes)
        && files == old(files) + [RowOf(versionId, file)]
        && hashes == old(hashes) + [HashRows(file.hashes)]
        && updates == old(updates) + |file.hashes| - |HashRows(file.hashes)|
    {
      fileId := |files|;
      if !IsInteger(file.size) {
        return fileId, Some(NotAnInteger);
      }
      var row := FileRow(versionId, file.name, file.primary, versionId + "/" + file.name,
                         file.size.value.Floor, file.url);
      var inserted := InsertFile(row);
      if !inserted {
        return fileId, Some(KeyTaken);
      }
      error := CreateHashes(fileId, file.hashes);
    }

    method CreateVersionFiles(versionId: string, list: seq<File>)
      returns (created: seq<(string, nat)>, error: Option<Error>)
      requires Valid() && '/' !in versionId
      requires forall i :: 0 <= i < |files| ==> files[i].versionId != versionId
      modifies this
      ensures Storable(list) ==> error.None? && updates == old(updates)
      ensures error.None? ==> Stored(old(files), old(hashes), versionId, list, files, hashes)
      ensures error.None? ==> Valid() && |created| == |list|
      ensures error.None? ==> forall i :: 0 <= i < |list| ==> created[i] == (list[i].name, |old(files)| + i)
    {
      created, error := [], None;
      for i := 0 to |list|
        invariant Valid() && |created| == i && error.None?
        invariant Stored(old(files), old(hashes), versionId, list[..i], files, hashes)
        invariant Storable(list) ==> updates == old(updates)
        invariant forall k :: 0 <= k < i ==> created[k] == (list[k].name, |old(files)| + k)
      {
        if Storable(list) {
          NewKey(files, old(files), versionId, list, i);
          HashRowsCount(list[i].hashes);
        }
        ghost var filesBefore, hashesBefore := files, hashes;
        var fileId: nat;
        fileId, error := CreateFile(versionId, list[i]);
        if error.Some? {
          return;
        }
        OneMoreFile(old(files), old(hashes), versionId, list, i, filesBefore, hashesBefore, files, hashes);
        created := created + [(list[i].name, fileId)];
      }
      assert list[..|list|] == list;
    }
  }

  /** The tables after a request: the row of every file and its hash rows, in order, under the new ids. */
  ghost predicate Stored(
    files: seq<FileRow>, hashes: seq<HashRow>, versionId: string, list: seq<File>,
    files': seq<FileRow>, hashes': seq<HashRow>)
  {
    && (forall i :: 0 <= i < |list| ==> list[i].size.Finite?)
    && (forall i :: 0 <= i < |list| ==> Known(list[i].hashes))
    && files' == files + Rows(versionId, list)
    && hashes' == hashes + AllHashRows(list)
  }

  lemma OneMoreFile(
    start: seq<FileRow>, startHashes: seq<HashRow>, versionId: string, list: seq<File>, i: nat,
    files: seq<FileRow>, hashes: seq<HashRow>, files': seq<FileRow>, hashes': seq<HashRow>)
    requires i < |list| && Stored(start, startHashes, versionId, list[..i], files, hashes)
    requires list[i].size.Finite? && Known(list[i].hashes)
    requires files' == files + [RowOf(versionId, list[i])]
    requires hashes' == hashes + [HashRows(list[i].hashes)]
    ensures Stored(start, startHashes, versionId, list[..i + 1], files', hashes')
  {
    var longer := list[..i + 1];
    assert longer == list[..i] + [list[i]];
    assert Rows(versionId, longer) == Rows(versionId, list[..i]) + [RowOf(versionId, list[i])];
    assert AllHashRows(longer) == AllHashRows(list[..i]) + [HashRows(list[i].hashes)];
  }

  lemma NextHash(hashes: seq<Hash>, i: nat)
    requires i < |hashes| && Known(hashes[..i]) && hashes[i].algorithm.Some?
    ensures Known(hashes[..i + 1])
    ensures HashRows(hashes[..i + 1]) == HashRows(hashes[..i])[hashes[i].algorithm.value := Lower(hashes[i].value)]
  {
    assert hashes[..i + 1][..i] == hashes[..i];
  }

  lemma KeysTell(versionA: string, nameA: string, versionB: string, nameB: string)
    requires '/' !in versionA && '/' !in versionB
    ensures versionA + "/" + nameA == versionB + "/" + nameB <==> versionA == versionB && nameA == nameB
  {
    var a, b := versionA + "/" + nameA, versionB + "/" + nameB;
    if a == b {
      PartAt([], versionA, "/" + nameA, a);
      PartAt([], versionB, "/" + nameB, a);
      assert a[|versionA| + 1..] == nameA && b[|versionB| + 1..] == nameB;
    }
  }

  /** A key not yet in the table: the version is new, and the names of a request differ. */
  lemma NewKey(rows: seq<FileRow>, start: seq<FileRow>, versionId: string, files: seq<File>, i: nat)
    requires i < |files| && Storable(files) && '/' !in versionId && KeysMade(start)
    requires rows == start + Rows(versionId, files[..i])
    requires forall k :: 0 <= k < |start| ==> start[k].versionId != versionId
    ensures StoreError(rows, versionId, files[i]).None?
  {
    forall k | 0 <= k < |rows| ensures rows[k].key != versionId + "/" + files[i].name {
      if k < |start| {
        KeysTell(start[k].versionId, start[k].fileName, versionId, files[i].name);
      } else {
        KeysTell(versionId, files[k - |start|].name, versionId, files[i].name);
      }
    }
    ValidListStored(files[i].hashes);
  }

  lemma {:induction false} ValidListStored(hashes: seq<Hash>)
    requires forall i :: 0 <= i < |hashes| ==> hashes[i].algorithm.Some? && hashes[i].value != []
    ensures HashListError(hashes).None?
  {
    if hashes != [] {
      ValidListStored(hashes[1..]);
    }
  }

  lemma {:induction false} HashRowsKeys(hashes: seq<Hash>)
    requires Known(hashes)
    ensures forall a :: a in HashRows(hashes) <==> exists i :: 0 <= i < |hashes| && hashes[i].algorithm == Some(a)
  {
    if hashes != [] {
      var n := |hashes| - 1;
      HashRowsKeys(hashes[..n]);
      assert hashes == hashes[..n] + [hashes[n]];
    }
  }

  /** Hashes of different algorithms each get their own row. */
  lemma {:induction false} HashRowsCount(hashes: seq<Hash>)
    requires ValidHashes(hashes)
    ensures Known(hashes) && |HashRows(hashes)| == |hashes|
    ensures forall i :: 0 <= i < |hashes| ==>
      HashRows(hashes).Items >= {(hashes[i].algorithm.value, Lower(hashes[i].value))}
  {
    if hashes != [] {
      var n := |hashes| - 1;
      HashRowsKeys(hashes[..n]);
      HashRowsCount(hashes[..n]);
      var before := HashRows(hashes[..n]);
      forall i | 0 <= i < |hashes|
        ensures HashRows(hashes).Items >= {(hashes[i].algorithm.value, Lower(hashes[i].value))}
      {
        if i < n {
          assert hashes[..n][i] == hashes[i];
          assert (hashes[i].algorithm.value, Lower(hashes[i].value)) in before.Items;
        }
        assert hashes[i].algorithm.value in HashRows(hashes);
      }
    }
  }

  /**
   An accepted request can always be stored, and its rows are one for every file with pairwise
   distinct keys and exactly one primary, each with as many hash rows as hashes were supplied.
   */
  lemma AcceptedIsStored(versionId: string, files: seq<File>)
    requires '/' !in versionId && RequestError(files).None?
    ensures Storable(files) && KeysDistinct(Rows(versionId, files))
    ensures exists p :: 0 <= p < |files| && OnlyPrimary(files, p)
    ensures forall i :: 0 <= i < |files| ==> RowOf(versionId, files[i]).sizeBytes as real == files[i].size.value
    ensures forall i :: 0 <= i < |files| ==>
      Known(files[i].hashes) && |HashRows(files[i].hashes)| == |files[i].hashes|
  {
    AcceptsExactlyValid(files);
    var rows := Rows(versionId, files);
    forall i, j | 0 <= i < j < |rows| ensures rows[i].key != rows[j].key {
      KeysTell(versionId, files[i].name, versionId, files[j].name);
    }
    forall i | 0 <= i < |files| ensures Known(files[i].hashes) && |HashRows(files[i].hashes)| == |files[i].hashes| {
      HashRowsCount(files[i].hashes);
    }
  }
}
