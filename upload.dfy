/** The upload handlers of the server (`Upload` in src/services/upload.ts),
    without their file-system effects. A directory walk (`klaw-sync`) is an
    input sequence of items; the moves and removals a handler issues are
    returned as sequences, in the order the handler issues them. */
module Upload {
  import opened Sequences
  import opened Paths

  /** One entry of a directory walk: absolute path, whether it is a
      directory, and its size in bytes. */
  datatype Item = Item(path: string, isDirectory: bool, size: nat)

  /** The `IFile` record returned for each uploaded file
      (`file_name`, `file_link`, `file_size`, `file_format`). */
  datatype FileRecord = FileRecord(fileName: string, fileLink: string, fileSize: nat, fileFormat: string)

  /** One `moveSync(src, dest)`. */
  datatype Move = Move(src: string, dest: string)

  /** The body of a successful metadata upload
      (`metadata_file`, `metadata_object`, `metadata_link`, `metadata_format`,
      `metadata_size`). */
  datatype MetadataResponse =
    MetadataResponse(file: string, objectKey: string, link: string, format: string, size: nat)

  /** What `AddMetadata` answers: the stored file, or "File already exists"
      when the move is rejected. */
  datatype MetadataReply = Stored(response: MetadataResponse) | AlreadyExists

  const ModelExtensions: seq<string> := [".ply", ".obj", ".babylon"]

  /** The extensions an upload of type `uploadType` keeps. */
  function ExtensionFilter(uploadType: string): seq<string>
  {
    if uploadType == "model" then ModelExtensions else []
  }

  /** Whether the filter lists an item's extension. */
  function Keeps(filter: seq<string>): Item -> bool
  {
    (item: Item) => Extname(item.path) in filter
  }

  /** The found items whose extension is in `filter`, in walk order. */
  function FilterByExtension(found: seq<Item>, filter: seq<string>): (r: seq<Item>)
    ensures forall x :: x in r <==> x in found && Extname(x.path) in filter
    ensures IsSubsequence(r, found)
  {
    FilterIsSubsequence(found, Keeps(filter));
    Filter(found, Keeps(filter))
  }

  /** Every occurrence of a matching item survives the filter, and no
      occurrence of another item does. */
  lemma FilterByExtensionCount(found: seq<Item>, filter: seq<string>, x: Item)
    ensures multiset(FilterByExtension(found, filter))[x] ==
      if Extname(x.path) in filter then multiset(found)[x] else 0
  {
    FilterCount(found, Keeps(filter), x);
  }

  /** The items the response describes: the filtered ones, or every found
      item when the filter keeps none. */
  function ResponseSource(foundFiles: seq<Item>, filter: seq<string>): (r: seq<Item>)
    ensures (forall x :: x in foundFiles ==> Extname(x.path) !in filter) ==> r == foundFiles
    ensures (exists x :: x in foundFiles && Extname(x.path) in filter) ==>
      r != [] && r == FilterByExtension(foundFiles, filter)
  {
    var filtered := FilterByExtension(foundFiles, filter);
    if |filtered| > 0 then filtered else foundFiles
  }

  /** Only model uploads are filtered; for every other type the response
      describes every found item. */
  lemma OnlyModelUploadsAreFiltered(uploadType: string, foundFiles: seq<Item>)
    ensures ExtensionFilter(uploadType) != [] <==> uploadType == "model"
    ensures uploadType != "model" ==> ResponseSource(foundFiles, ExtensionFilter(uploadType)) == foundFiles
    ensures uploadType == "model" ==> forall x :: x in ResponseSource(foundFiles, ExtensionFilter(uploadType)) ==>
      x in foundFiles &&
      ((exists y :: y in foundFiles && Extname(y.path) in ModelExtensions) ==> Extname(x.path) in ModelExtensions)
  {
  }

  /** The response record of one item. */
  function ToRecord(root: string, item: Item): FileRecord
  {
    FileRecord(Basename(item.path), RelativeLink(item.path, root), item.size, Extname(item.path))
  }

  /** A record's name is the basename of its item's path, the longest
      suffix without '/'. Its format is the path's extension: the suffix of
      the name from its last '.', empty exactly when the name is ".." or has
      no '.' after its first character. Its size is the item's size. */
  lemma RecordDescribesItem(root: string, item: Item)
    ensures var rec := ToRecord(root, item);
      rec.fileName == Basename(item.path) && rec.fileFormat == Extname(item.path) && rec.fileSize == item.size
    ensures var name := Basename(item.path);
      '/' !in name && |name| <= |item.path| && name == item.path[|item.path| - |name|..]
    ensures var name := Basename(item.path);
      |name| < |item.path| ==> item.path[|item.path| - |name| - 1] == '/'
    ensures var name, format := Basename(item.path), Extname(item.path);
      format == "" || (format[0] == '.' && |format| < |name| && format == name[|name| - |format|..])
    ensures var format := Extname(item.path);
      forall k :: 0 < k < |format| ==> format[k] != '.'
    ensures var name, format := Basename(item.path), Extname(item.path);
      format == "" <==> name == ".." || forall k :: 0 < k < |name| ==> name[k] != '.'
  {
    BasenameIsLastSegment(item.path);
    ExtnameOfPath(item.path);
  }

  /** For an item stored under the root directory, the link is the item's
      path relative to the root. */
  lemma RecordLinkUnderRoot(root: string, rest: string, isDirectory: bool, size: nat)
    requires |rest| > 0 && rest[0] == '/'
    ensures ToRecord(root, Item(root + rest, isDirectory, size)).fileLink == rest[1..]
  {
    RelativeLinkUnderRoot(root, rest);
  }

  function RecordOf(root: string): Item -> FileRecord
  {
    (item: Item) => ToRecord(root, item)
  }

  /** `fileArray.map(...)`: one record per item, in order. */
  function ToRecords(root: string, items: seq<Item>): seq<FileRecord>
  {
    Map(items, RecordOf(root))
  }

  function FileSize(rec: FileRecord): int
  {
    rec.fileSize
  }

  /** `prepareResponseFiles`: the records of the items sorted by size. */
  function PrepareResponseFiles(root: string, items: seq<Item>): (r: seq<FileRecord>)
    ensures SortedBy(r, FileSize)
    ensures multiset(r) == multiset(ToRecords(root, items))
  {
    SortBy(ToRecords(root, items), FileSize)
  }

  /** The response holds exactly one record per item: every record is some
      item's record and every item's record is there. */
  lemma ResponseRecordsMatchItems(root: string, items: seq<Item>)
    ensures |PrepareResponseFiles(root, items)| == |items|
    ensures forall rec :: rec in PrepareResponseFiles(root, items) ==>
      exists item :: item in items && rec == ToRecord(root, item)
    ensures forall item :: item in items ==> ToRecord(root, item) in PrepareResponseFiles(root, items)
  {
    MapMembers(items, RecordOf(root));
    SortByMembers(ToRecords(root, items), FileSize);
  }

  function SizeIs(n: int): FileRecord -> bool
  {
    (rec: FileRecord) => rec.fileSize == n
  }

  /** Records of equal size keep the walk order of their items. */
  lemma ResponseKeepsWalkOrderForEqualSizes(root: string, items: seq<Item>, n: int)
    ensures Filter(PrepareResponseFiles(root, items), SizeIs(n)) == Filter(ToRecords(root, items), SizeIs(n))
  {
    SortByStable(ToRecords(root, items), FileSize, SizeIs(n));
  }

  /** The token's upload directory: the upload directory below the root,
      and the token directory below that. */
  function TokenDirectory(root: string, uploadDir: string, token: string): string
  {
    root + "/" + uploadDir + "/" + token
  }

  predicate IsFile(item: Item)
  {
    !item.isDirectory
  }

  predicate IsDirectory(item: Item)
  {
    item.isDirectory
  }

  /** The move that brings a file of the walk to the top of `dir`. */
  function MoveOf(dir: string, item: Item): Move
  {
    Move(item.path, Join(dir, Basename(item.path)))
  }

  /** A file already at the top of `dir` is moved onto itself. */
  lemma TopLevelFileMovesOntoItself(dir: string, name: string, size: nat)
    requires '/' !in name
    ensures MoveOf(dir, Item(Join(dir, name), false, size)) == Move(Join(dir, name), Join(dir, name))
  {
    BasenameOfJoin(dir, name);
  }

  function MoveTo(dir: string): Item -> Move
  {
    (item: Item) => MoveOf(dir, item)
  }

  /** The moves of the flattening step, in walk order. */
  function FlattenMoves(dir: string, found: seq<Item>): seq<Move>
  {
    Map(Filter(found, IsFile), MoveTo(dir))
  }

  /** Flattening issues one move per file of the walk, in walk order, each
      to a destination directly under `dir` named after the file. */
  lemma FlattenMovesInWalkOrder(dir: string, found: seq<Item>)
    ensures |FlattenMoves(dir, found)| == |Filter(found, IsFile)|
    ensures forall i :: 0 <= i < |FlattenMoves(dir, found)| ==>
      && FlattenMoves(dir, found)[i].src == Filter(found, IsFile)[i].path
      && FlattenMoves(dir, found)[i].dest == Join(dir, Basename(Filter(found, IsFile)[i].path))
  {
    var files := Filter(found, IsFile);
    assert |FlattenMoves(dir, found)| == |files|;
  }

  /** Every file of the walk, and nothing else, is moved. */
  lemma FlattenMovesEveryFile(dir: string, found: seq<Item>)
    ensures forall item :: item in found && !item.isDirectory ==>
      Move(item.path, Join(dir, Basename(item.path))) in FlattenMoves(dir, found)
    ensures forall m :: m in FlattenMoves(dir, found) ==>
      exists item :: item in found && !item.isDirectory && m == Move(item.path, Join(dir, Basename(item.path)))
  {
    MapMembers(Filter(found, IsFile), MoveTo(dir));
  }

  /** A moved file keeps its name and its extension. */
  lemma FlattenKeepsNamesAndFormats(dir: string, found: seq<Item>)
    ensures forall m :: m in FlattenMoves(dir, found) ==>
      Basename(m.dest) == Basename(m.src) && Extname(m.dest) == Extname(m.src)
  {
    var moves := FlattenMoves(dir, found);
    FlattenMovesInWalkOrder(dir, found);
    forall m | m in moves
      ensures Basename(m.dest) == Basename(m.src) && Extname(m.dest) == Extname(m.src)
    {
      var i :| 0 <= i < |moves| && moves[i] == m;
      JoinKeepsNameAndExtension(dir, m.src);
    }
  }

  /** The index of the first move that fails, or the number of moves when
      all of them succeed; `succeeds` is the file system's answer to each
      `moveSync`. */
  function FirstFailure(moves: seq<Move>, succeeds: Move -> bool): (k: nat)
    ensures k <= |moves|
    ensures forall i :: 0 <= i < k ==> succeeds(moves[i])
    ensures k < |moves| ==> !succeeds(moves[k])
  {
    if moves == [] then 0
    else if !succeeds(moves[0]) then 0
    else 1 + FirstFailure(moves[1..], succeeds)
  }

  /** The moves a loop of `moveSync` calls issues: all of them, or those up
      to and including the first that throws. */
  function IssuedMoves(moves: seq<Move>, succeeds: Move -> bool): (r: seq<Move>)
    ensures |r| <= |moves| && r == moves[..|r|]
    ensures forall i :: 0 <= i < |r| - 1 ==> succeeds(r[i])
    ensures |r| < |moves| ==> r != [] && !succeeds(r[|r| - 1])
    ensures (forall i :: 0 <= i < |moves| ==> succeeds(moves[i])) ==> r == moves
  {
    var k := FirstFailure(moves, succeeds);
    if k < |moves| then moves[..k + 1] else moves
  }

  /** A move is refused when an earlier move already put a file at its
      destination, as `moveSync` does not overwrite. */
  ghost predicate RefusesTakenDestinations(moves: seq<Move>, succeeds: Move -> bool)
  {
    forall h, k :: 0 <= h < k < |moves| && moves[h].dest == moves[k].dest ==> !succeeds(moves[k])
  }

  /** Two files of the walk with the same name are moved to the same
      destination, so, without overwriting, flattening stops at the second
      of them at the latest. */
  lemma SameNameStopsFlattening(dir: string, found: seq<Item>, succeeds: Move -> bool, i: int, j: int)
    requires 0 <= i < j < |Filter(found, IsFile)|
    requires Basename(Filter(found, IsFile)[i].path) == Basename(Filter(found, IsFile)[j].path)
    requires RefusesTakenDestinations(FlattenMoves(dir, found), succeeds)
    ensures FlattenMoves(dir, found)[i].dest == FlattenMoves(dir, found)[j].dest
    ensures FirstFailure(FlattenMoves(dir, found), succeeds) <= j
  {
    FlattenMovesInWalkOrder(dir, found);
  }

  function PathsOf(items: seq<Item>): seq<string>
  {
    seq(|items|, i requires 0 <= i < |items| => items[i].path)
  }

  /** The directories of the walk in the order they are removed: by path
      length, shortest first. Sorting the paths and sorting the items by
      their path's length give the same paths, as the sort is stable. */
  function RemovalOrder(found: seq<Item>): (r: seq<string>)
    ensures SortedBy(r, Utf16Length)
    ensures multiset(r) == multiset(PathsOf(Filter(found, IsDirectory)))
  {
    SortBy(PathsOf(Filter(found, IsDirectory)), Utf16Length)
  }

  /** Exactly the directories of the walk are removed. */
  lemma RemovalOrderRemovesEveryDirectory(found: seq<Item>)
    ensures forall p :: p in RemovalOrder(found) <==>
      exists item :: item in found && item.isDirectory && item.path == p
  {
    var r := RemovalOrder(found);
    var dirs := Filter(found, IsDirectory);
    var paths := PathsOf(dirs);
    forall p
      ensures p in r <==> exists item :: item in found && item.isDirectory && item.path == p
    {
      assert p in r <==> p in multiset(paths);
      if p in paths {
        var i :| 0 <= i < |paths| && paths[i] == p;
        assert dirs[i] in dirs;
      }
      if exists item :: item in found && item.isDirectory && item.path == p {
        var item :| item in found && item.isDirectory && item.path == p;
        assert item in dirs;
        var i :| 0 <= i < |dirs| && dirs[i] == item;
        assert paths[i] == p;
      }
    }
  }

  /** A directory is removed before every directory whose path it is a
      proper prefix of. */
  lemma RemovalOrderRemovesParentsFirst(found: seq<Item>, i: int, j: int)
    requires 0 <= i < |RemovalOrder(found)| && 0 <= j < |RemovalOrder(found)|
    requires RemovalOrder(found)[i] < RemovalOrder(found)[j]
    ensures i < j
  {
    var r := RemovalOrder(found);
    Utf16LengthOfProperPrefix(r[i], r[j]);
    SmallerKeyComesFirst(r, Utf16Length, i, j);
  }

  /** The first `forEach` of `UploadFinish`: one move per file of the walk,
      until a move throws. */
  method MoveFilesToTopLevel(dir: string, found: seq<Item>, succeeds: Move -> bool)
    returns (moves: seq<Move>, completed: bool)
    ensures moves == IssuedMoves(FlattenMoves(dir, found), succeeds)
    ensures completed <==> FirstFailure(FlattenMoves(dir, found), succeeds) == |FlattenMoves(dir, found)|
  {
    var files := Filter(found, IsFile);
    ghost var all := FlattenMoves(dir, found);
    moves, completed := [], true;
    var i := 0;
    while i < |files| && completed
      invariant 0 <= i <= |files| == |all|
      invariant moves == all[..i]
      invariant completed ==> FirstFailure(all, succeeds) >= i
      invariant !completed ==> i > 0 && FirstFailure(all, succeeds) == i - 1
    {
      var m := MoveOf(dir, files[i]);
      assert m == all[i];
      moves := moves + [m];
      if !succeeds(m) {
        completed := false;
      }
      i := i + 1;
    }
  }

  /** The second `forEach` of `UploadFinish`: one removal per directory of
      the walk, in the sorted order. */
  method RemoveSubdirectories(found: seq<Item>) returns (removed: seq<string>)
    ensures removed == RemovalOrder(found)
  {
    var directories := RemovalOrder(found);
    removed := [];
    for i := 0 to |directories|
      invariant removed == directories[..i]
    {
      removed := removed + [directories[i]];
    }
  }

  /** What `UploadFinish` answers: the list of files, or nothing when a
      move threw and the handler stopped. */
  datatype FinishReply = Listed(files: seq<FileRecord>) | Aborted

  /** `UploadFinish`. Without the token directory the answer is an empty
      list. Otherwise every file is moved to the top of the token
      directory; if a move throws, the handler stops there. When all moves
      succeed the subdirectories are removed shortest path first, and the
      answer describes the files of the second walk, `foundFiles`. */
  method UploadFinish(root: string, uploadDir: string, token: string, uploadType: string,
                      pathExists: bool, found: seq<Item>, moveSucceeds: Move -> bool, foundFiles: seq<Item>)
    returns (moves: seq<Move>, removed: seq<string>, reply: FinishReply)
    ensures !pathExists ==> moves == [] && removed == [] && reply == Listed([])
    ensures pathExists ==>
      moves == IssuedMoves(FlattenMoves(TokenDirectory(root, uploadDir, token), found), moveSucceeds)
    ensures pathExists ==>
      var all := FlattenMoves(TokenDirectory(root, uploadDir, token), found);
      if FirstFailure(all, moveSucceeds) == |all| then
        removed == RemovalOrder(found) &&
        reply == Listed(PrepareResponseFiles(root, ResponseSource(foundFiles, ExtensionFilter(uploadType))))
      else
        removed == [] && reply == Aborted
  {
    moves, removed, reply := [], [], Listed([]);
    if pathExists {
      var completed;
      moves, completed := MoveFilesToTopLevel(TokenDirectory(root, uploadDir, token), found, moveSucceeds);
      if !completed {
        reply := Aborted;
        return;
      }
      removed := RemoveSubdirectories(found);
      var filtered := FilterByExtension(foundFiles, ExtensionFilter(uploadType));
      reply := Listed(PrepareResponseFiles(root, if |filtered| > 0 then filtered else foundFiles));
    }
  }

  /** The stored name of a metadata file: the prefix, a dash, and the
      original name. */
  function MetadataFileName(prefix: string, originalName: string): string
  {
    prefix + "-" + originalName
  }

  /** The path of a metadata file below the directory `base`. */
  function MetadataPath(base: string, token: string, key: string, fileName: string): string
  {
    base + "/" + token + "/" + key + "/" + fileName
  }

  /** Where a metadata file is stored. */
  function MetadataTarget(root: string, uploadDir: string, token: string, key: string, fileName: string): string
  {
    Join(root, MetadataPath(uploadDir, token, key, fileName))
  }

  /** The public link returned for a metadata file. */
  function MetadataLink(token: string, key: string, fileName: string): string
  {
    "models/" + token + "/" + key + "/" + fileName
  }

  /** `AddMetadata`: the target path is built piece by piece; `moved` is
      whether the move from the temporary file succeeded and `size` the
      stored file's size. */
  method AddMetadata(root: string, uploadDir: string, token: string, key: string,
                     prefix: string, originalName: string, moved: bool, size: nat)
    returns (target: string, reply: MetadataReply)
    ensures target == MetadataTarget(root, uploadDir, token, key, MetadataFileName(prefix, originalName))
    ensures moved ==> reply == Stored(MetadataResponse(MetadataFileName(prefix, originalName), key,
      MetadataLink(token, key, MetadataFileName(prefix, originalName)), Extname(target), size))
    ensures !moved ==> reply == AlreadyExists
  {
    target := root + "/" + uploadDir + "/";
    target := target + token + "/";
    target := target + key + "/";
    var fileName := prefix + "-" + originalName;
    target := target + fileName;
    MetadataTargetInSteps(root, uploadDir, token, key, fileName);
    if moved {
      reply := Stored(MetadataResponse(fileName, key, MetadataLink(token, key, fileName), Extname(target), size));
    } else {
      reply := AlreadyExists;
    }
  }

  lemma MetadataTargetInSteps(root: string, uploadDir: string, token: string, key: string, fileName: string)
    ensures root + "/" + uploadDir + "/" + token + "/" + key + "/" + fileName
            == MetadataTarget(root, uploadDir, token, key, fileName)
  {
    JoinAppend(root, uploadDir, "/");
    JoinAppend(root, uploadDir + "/", token);
    JoinAppend(root, uploadDir + "/" + token, "/");
    JoinAppend(root, uploadDir + "/" + token + "/", key);
    JoinAppend(root, uploadDir + "/" + token + "/" + key, "/");
    JoinAppend(root, uploadDir + "/" + token + "/" + key + "/", fileName);
  }

  /** Two paths of metadata files below different directories differ. */
  lemma {:induction false} MetadataPathDeterminesBase(a: string, b: string, token: string, key: string, fileName: string)
    requires MetadataPath(a, token, key, fileName) == MetadataPath(b, token, key, fileName)
    ensures a == b
  {
    var pa, pb := MetadataPath(a, token, key, fileName), MetadataPath(b, token, key, fileName);
    assert |a| == |b|;
    assert pa[..|a|] == a;
    assert pb[..|b|] == b;
  }

  /** The metadata link is the stored file's path relative to the root
      exactly when the upload directory is "models". */
  lemma MetadataLinkIsRelativeLink(root: string, uploadDir: string, token: string, key: string, fileName: string)
    ensures (RelativeLink(MetadataTarget(root, uploadDir, token, key, fileName), root)
             == MetadataLink(token, key, fileName)) <==> uploadDir == "models"
  {
    RelativeLinkOfJoin(root, MetadataPath(uploadDir, token, key, fileName));
    assert "models" + "/" == "models/";
    assert MetadataLink(token, key, fileName) == MetadataPath("models", token, key, fileName);
    if MetadataPath(uploadDir, token, key, fileName) == MetadataLink(token, key, fileName) {
      MetadataPathDeterminesBase(uploadDir, "models", token, key, fileName);
    }
  }

  /** A metadata file whose prefix and original name hold no '/' is stored
      under its prefixed name, and its link ends in that name too. */
  lemma MetadataStoredUnderPrefixedName(root: string, uploadDir: string, token: string, key: string,
                                        prefix: string, originalName: string)
    requires '/' !in prefix && '/' !in originalName
    ensures Basename(MetadataTarget(root, uploadDir, token, key, MetadataFileName(prefix, originalName)))
            == MetadataFileName(prefix, originalName)
    ensures Basename(MetadataLink(token, key, MetadataFileName(prefix, originalName)))
            == MetadataFileName(prefix, originalName)
  {
    var name := MetadataFileName(prefix, originalName);
    assert '/' !in name;
    var rel := MetadataPath(uploadDir, token, key, name);
    assert rel == Join(uploadDir + "/" + token + "/" + key, name);
    BasenameOfJoin(uploadDir + "/" + token + "/" + key, name);
    BasenameOfJoinedPath(root, rel);
    assert MetadataLink(token, key, name) == Join("models/" + token + "/" + key, name);
    BasenameOfJoin("models/" + token + "/" + key, name);
  }

  /** Where `UploadRequest` stores one uploaded file: under its relative path
      in the token directory, named after the upload time (`stamp`) and the
      slugified original name (`slug`), joined by an underscore. */
  function RequestTarget(root: string, uploadDir: string, token: string, relPath: string,
                         stamp: string, slug: string): string
  {
    TokenDirectory(root, uploadDir, token) + "/" + relPath + "/" + stamp + "_" + slug
  }

  /** `UploadRequest`: the target path is built piece by piece. */
  method UploadRequest(root: string, uploadDir: string, token: string, relPath: string,
                       stamp: string, slug: string)
    returns (target: string)
    ensures target == RequestTarget(root, uploadDir, token, relPath, stamp, slug)
  {
    target := root + "/" + uploadDir + "/";
    target := target + token + "/";
    target := target + relPath + "/";
    target := target + stamp + "_" + slug;
  }

  /** A file stored by `UploadRequest` ends up, after `UploadFinish`
      flattens the token directory, directly under that directory with its
      stored name. */
  lemma RequestFileFlattensIntoTokenDirectory(root: string, uploadDir: string, token: string,
                                              relPath: string, stamp: string, slug: string, size: nat)
    requires '/' !in stamp && '/' !in slug
    ensures var dir := TokenDirectory(root, uploadDir, token);
      MoveOf(dir, Item(RequestTarget(root, uploadDir, token, relPath, stamp, slug), false, size)).dest
      == Join(dir, stamp + "_" + slug)
  {
    var dir := TokenDirectory(root, uploadDir, token);
    var name := stamp + "_" + slug;
    assert '/' !in name;
    assert RequestTarget(root, uploadDir, token, relPath, stamp, slug) == Join(dir + "/" + relPath, name);
    BasenameOfJoin(dir + "/" + relPath, name);
  }
}
