/**
 * The file producer of the file component: it writes the body of each
 * message it receives to a file whose name it derives from the message and
 * the endpoint, creating the file's directory first, and either appends to
 * the file or overwrites it.
 */
module FileComponent {
  import opened Wrappers
  import opened Paths
  import opened Streams
  import opened Files
  import opened Transfer

  /**
   * The three things the producer asks of a message: its id, the optional
   * file name header and the body (passed beside it, as it may be missing).
   */
  datatype Message = Message(id: string, fileName: Option<string>)

  /** Why a call of process fails; each stands for the exception Java throws. */
  datatype Failure =
    | MissingBody         // getMandatoryInBody finds no body
    | OpenFailed          // the file cannot be opened for writing (FileNotFoundException)
    | NegativeBufferSize  // new byte[size] with size < 0 (NegativeArraySizeException)
    | ReadFailed          // the body's read throws an IOException
    | WriteFailed         // the channel's write throws an IOException

  /**
   * File.isDirectory: a relative path is looked up under the working
   * directory, and the empty path, which names no file, is no directory.
   */
  predicate IsDirectory(cwd: string, dirs: set<string>, file: string): (r: bool)
    ensures file == [] ==> !r
    ensures IsAbsolute(file) ==> (r <==> DirectoryExists(dirs, file))
    ensures file != [] && !IsAbsolute(file) ==> (r <==> DirectoryExists(dirs, Child(Some(cwd), file)))
  {
    file != [] && DirectoryExists(dirs, Absolute(cwd, file))
  }

  /**
   * FileProducer.createFileName. A file name header takes precedence: it
   * names a file under the endpoint file (or under the working directory
   * when the endpoint has none), unless that path is an existing directory,
   * in which case the message id names a file inside it. Without a header
   * the message id names a file inside the endpoint file when that is an
   * existing directory, and otherwise a file of its own (an endpoint file
   * that is not a directory is ignored).
   */
  function CreateFileName(messageId: string, header: Option<string>, endpointFile: Option<string>,
                          cwd: string, dirs: set<string>): (r: string)
    ensures header.Some? ==>
      var answer := Child(endpointFile, header.value);
      r == if IsDirectory(cwd, dirs, answer) then Child(Some(answer), messageId) else answer
    ensures header.None? && endpointFile.Some? && IsDirectory(cwd, dirs, endpointFile.value) ==>
      r == Child(endpointFile, messageId)
    ensures header.None? && (endpointFile.None? || !IsDirectory(cwd, dirs, endpointFile.value)) ==>
      r == messageId
  {
    match header
    case Some(name) =>
      var answer := Child(endpointFile, name);
      if IsDirectory(cwd, dirs, answer) then Child(Some(answer), messageId) else answer
    case None =>
      if endpointFile.Some? && IsDirectory(cwd, dirs, endpointFile.value) then Child(endpointFile, messageId)
      else Child(None, messageId)
  }

  /** The one path createFileName asks File.isDirectory about, if any. */
  function ProbedPath(header: Option<string>, endpointFile: Option<string>): Option<string>
  {
    match header
    case Some(name) => Some(Child(endpointFile, name))
    case None => endpointFile
  }

  /**
   * createFileName looks at the filesystem only through that one question:
   * two directory sets that give the same answer about it give the same
   * name. In particular, with a header, whether the endpoint file itself is
   * a directory never matters.
   */
  lemma CreateFileNameProbesOnePath(messageId: string, header: Option<string>, endpointFile: Option<string>,
                                    cwd: string, dirs1: set<string>, dirs2: set<string>)
    requires ProbedPath(header, endpointFile).Some? ==>
      (IsDirectory(cwd, dirs1, ProbedPath(header, endpointFile).value) <==>
       IsDirectory(cwd, dirs2, ProbedPath(header, endpointFile).value))
    ensures CreateFileName(messageId, header, endpointFile, cwd, dirs1) ==
            CreateFileName(messageId, header, endpointFile, cwd, dirs2)
  {
  }

  /** Without a header, an endpoint file that is not an existing directory is as good as none. */
  lemma PlainEndpointFileIgnored(messageId: string, endpointFile: string, cwd: string, dirs: set<string>)
    requires !IsDirectory(cwd, dirs, endpointFile)
    ensures CreateFileName(messageId, None, Some(endpointFile), cwd, dirs) ==
            CreateFileName(messageId, None, None, cwd, dirs) == messageId
  {
  }

  /**
   * An empty header names the endpoint file itself, so with a directory as
   * endpoint the message id names a file inside it; with no endpoint file
   * it names no file at all, and nothing can be opened under that name.
   */
  lemma EmptyHeaderNamesEndpointFile(messageId: string, endpointFile: Option<string>, cwd: string, dirs: set<string>)
    ensures endpointFile.Some? && endpointFile.value != [] ==>
      CreateFileName(messageId, Some([]), endpointFile, cwd, dirs) ==
      if IsDirectory(cwd, dirs, endpointFile.value) then Child(endpointFile, messageId) else endpointFile.value
    ensures endpointFile.None? ==>
      CreateFileName(messageId, Some([]), endpointFile, cwd, dirs) == [] &&
      !CanOpen(dirs, OpenedPath(cwd, CreateFileName(messageId, Some([]), endpointFile, cwd, dirs)))
  {
  }

  /**
   * The root is a directory whatever the directory set holds, so an
   * endpoint on the root names each file directly under it, and with the
   * root as working directory a relative name resolves to one just below it.
   */
  lemma RootEndpointNamesFileUnderRoot(messageId: string, cwd: string, dirs: set<string>)
    ensures CreateFileName(messageId, None, Some([Separator]), cwd, dirs) ==
      if IsAbsolute(messageId) then messageId else [Separator] + messageId
    ensures !IsAbsolute(messageId) ==> Absolute([Separator], messageId) == [Separator] + messageId
  {
  }

  /**
   * The name always ends in the message id or in the header: either the
   * header names the file itself, or the file is named by the message id.
   */
  lemma CreateFileNameEndsInIdOrHeader(messageId: string, header: Option<string>, endpointFile: Option<string>,
                                       cwd: string, dirs: set<string>)
    ensures var r := CreateFileName(messageId, header, endpointFile, cwd, dirs);
      var n := |r|;
      (|messageId| <= n && r[n - |messageId|..] == messageId) ||
      (header.Some? && |header.value| <= n && r[n - |header.value|..] == header.value)
  {
  }

  /**
   * FileProducer.buildDirectory on the file's absolute path: mkdirs on the
   * prefix before the last separator when that separator is not the first
   * character, nothing otherwise.
   */
  function DirectoriesAfterBuild(dirs: set<string>, files: set<string>, absPath: string): set<string>
  {
    match ParentDirectory(absPath)
    case None => dirs
    case Some(parent) => DirsAfterMkdirs(dirs, files, parent)
  }

  /**
   * buildDirectory adds only the parent and its ancestors; when no regular
   * file is in the way the parent and all its ancestors then exist; and a
   * path with no separator past its first character changes nothing.
   */
  lemma BuildDirectoryCreatesParent(dirs: set<string>, files: set<string>, absPath: string)
    ensures var r := DirectoriesAfterBuild(dirs, files, absPath);
      dirs <= r &&
      (ParentDirectory(absPath).None? ==> r == dirs) &&
      (ParentDirectory(absPath).Some? ==>
        r - dirs <= Ancestors(ParentDirectory(absPath).value) &&
        (Ancestors(ParentDirectory(absPath).value) !! files ==>
          r == dirs + Ancestors(ParentDirectory(absPath).value)))
  {
  }

  /** Building the directory a second time leaves the directories as after the first. */
  lemma BuildDirectoryIdempotent(dirs: set<string>, files: set<string>, absPath: string)
    ensures DirectoriesAfterBuild(DirectoriesAfterBuild(dirs, files, absPath), files, absPath) ==
            DirectoriesAfterBuild(dirs, files, absPath)
  {
    match ParentDirectory(absPath)
    case None =>
    case Some(parent) => MkdirsIdempotent(dirs, files, parent);
  }

  /** Once built, the directory of the target is there to open it in, unless a regular file is in the way. */
  lemma BuildDirectoryEnablesOpen(dirs: set<string>, files: set<string>, absPath: string)
    requires IsAbsolute(absPath) && !DirectoryExists(DirectoriesAfterBuild(dirs, files, absPath), absPath)
    requires ParentDirectory(absPath).Some? ==> Ancestors(ParentDirectory(absPath).value) !! files
    ensures CanOpen(DirectoriesAfterBuild(dirs, files, absPath), absPath)
  {
    match ParentDirectory(absPath)
    case None =>
    case Some(parent) =>
      assert parent in Ancestors(parent);
  }

  /**
   * The failure the copy loop ends in and the writes that succeeded in it:
   * on success or a read error, every write of the loop; on a write error,
   * the writes before the failing one.
   */
  ghost predicate Delivered(failure: Option<Failure>, c: Copy, issued: seq<Bytes>)
  {
    match failure
    case None => !c.readFailed && issued == c.writes
    case Some(f) =>
      (f == ReadFailed && c.readFailed && issued == c.writes) ||
      (f == WriteFailed && |issued| < |c.writes| && issued == c.writes[..|issued|])
  }

  /**
   * A read that does not fill the buffer ends the loop: the loop's writes
   * are those issued so far and then that read's bytes, if it returned
   * any, and it fails exactly when that read is an error.
   */
  lemma LoopStops(all: Copy, issued: seq<Bytes>, script: seq<ReadResult>, size: nat)
    requires issued + CopyLoop(script, size).writes == all.writes
    requires CopyLoop(script, size).readFailed == all.readFailed
    requires script == [] || !IsFull(script[0], size)
    ensures all.readFailed == (script != [] && script[0].ReadError?)
    ensures all.writes ==
      issued + if script != [] && script[0].Chunk? && |script[0].data| > 0 then [script[0].data] else []
  {
    CopyLoopLastRead(script, size);
    assert issued + [] == issued;
  }

  /**
   * A read that fills the buffer is written and the loop goes on with the
   * reads after it; should that write fail, the writes issued so far are a
   * proper prefix of the loop's.
   */
  lemma LoopContinues(all: Copy, issued: seq<Bytes>, script: seq<ReadResult>, size: nat)
    requires issued + CopyLoop(script, size).writes == all.writes
    requires CopyLoop(script, size).readFailed == all.readFailed
    requires script != [] && IsFull(script[0], size)
    ensures (issued + [script[0].data]) + CopyLoop(script[1..], size).writes == all.writes
    ensures CopyLoop(script[1..], size).readFailed == all.readFailed
    ensures Delivered(Some(WriteFailed), all, issued)
  {
    CopyLoopFullRead(script, size);
    var later := CopyLoop(script[1..], size).writes;
    assert issued + ([script[0].data] + later) == (issued + [script[0].data]) + later;
    DeliveredPrefix(all, issued, [script[0].data] + later);
  }

  /** The loop ended having issued every write, on its own or on a read error. */
  lemma DeliveredAll(failure: Option<Failure>, c: Copy, issued: seq<Bytes>)
    requires c.writes == issued
    requires failure == None || failure == Some(ReadFailed)
    requires failure == Some(ReadFailed) <==> c.readFailed
    ensures Delivered(failure, c, issued)
  {
  }

  /** The loop ended on a failing write after the writes in `done` succeeded. */
  lemma DeliveredPrefix(c: Copy, done: seq<Bytes>, rest: seq<Bytes>)
    requires c.writes == done + rest && rest != []
    ensures Delivered(Some(WriteFailed), c, done)
  {
    assert c.writes[..|done|] == done;
  }

  /**
   * One more successful write extends the file by its bytes and the
   * channel's record of writes by that write.
   */
  lemma WriteAppends(initial: Bytes, writes0: seq<Bytes>, done: seq<Bytes>, data: Bytes)
    ensures initial + Flatten(done) + data == initial + Flatten(done + [data])
    ensures writes0 + done + [data] == writes0 + (done + [data])
  {
    FlattenAppend(done, [data]);
    assert Flatten([data]) == data + Flatten([]);
  }

  /**
   * When no read returns more than the buffer holds, every write that
   * succeeded is non-empty and at most the buffer size, and all but the
   * last fill the buffer, whatever the loop ended in.
   */
  lemma IssuedWritesBounded(failure: Option<Failure>, script: seq<ReadResult>, size: nat, issued: seq<Bytes>)
    requires ChunksFit(script, size) && Delivered(failure, CopyLoop(script, size), issued)
    ensures ValidChunks(issued, size) && FullBeforeLast(issued, size)
  {
    var w := CopyLoop(script, size).writes;
    CopyLoopWritesBounded(script, size);
    assert |issued| <= |w| && forall i :: 0 <= i < |issued| ==> issued[i] == w[i];
  }

  /** The contents the channel starts from: kept in append mode, truncated otherwise. */
  function InitialContents(append: bool, files: map<string, Bytes>, path: string): (r: Bytes)
    ensures append && path in files ==> r == files[path]
    ensures !append || path !in files ==> r == []
  {
    if append && path in files then files[path] else []
  }

  class FileProducer {
    /** The endpoint's file: a directory to write into, a fixed file, or unset. */
    const endpointFile: Option<string>
    const append: bool
    const bufferSize: int

    constructor (endpointFile: Option<string>, append: bool, bufferSize: int)
      ensures this.endpointFile == endpointFile && this.append == append && this.bufferSize == bufferSize
    {
      this.endpointFile := endpointFile;
      this.append := append;
      this.bufferSize := bufferSize;
    }

    /** buildDirectory: the absolute path, its last separator, and mkdirs on what precedes it. */
    method BuildDirectory(fs: FileSystem, file: string)
      requires fs.Valid()
      modifies fs`dirs
      ensures fs.Valid()
      ensures fs.dirs == DirectoriesAfterBuild(old(fs.dirs), fs.files.Keys, Absolute(fs.cwd, file))
    {
      var dirName := Absolute(fs.cwd, file);
      var index := LastIndexOf(dirName, Separator);
      if index > 0 {
        dirName := dirName[..index];
        var _ := fs.Mkdirs(dirName);  // the result of mkdirs is ignored
      }
    }

    /**
     * The copy loop of process: read into the buffer; stop on a count of at
     * most 0; write the first `count` bytes and stop on a short read;
     * otherwise write the whole buffer and read again. `issued` is the
     * writes that succeeded, in order.
     */
    method CopyStream(body: InputStream, channel: FileChannel, size: nat)
      returns (failure: Option<Failure>, ghost issued: seq<Bytes>)
      requires !body.closed && ChunksFit(body.pending, size)
      modifies body`pending, channel`contents, channel`writes
      ensures channel.writes == old(channel.writes) + issued
      ensures channel.contents == old(channel.contents) + Flatten(issued)
      ensures Delivered(failure, CopyLoop(old(body.pending), size), issued)
      ensures ValidChunks(issued, size) && FullBeforeLast(issued, size)
    {
      ghost var script0 := body.pending;
      ghost var all := CopyLoop(body.pending, size);
      ghost var initial := channel.contents;
      ghost var writes0 := channel.writes;
      issued := [];
      failure := None;
      assert initial + Flatten(issued) == initial;
      assert writes0 + issued == writes0;
      while true
        invariant !body.closed
        invariant issued + CopyLoop(body.pending, size).writes == all.writes
        invariant CopyLoop(body.pending, size).readFailed == all.readFailed
        invariant channel.contents == initial + Flatten(issued)
        invariant channel.writes == writes0 + issued
        decreases |body.pending|
      {
        ghost var script := body.pending;
        var result := body.Read();
        if result.ReadError? {
          failure := Some(ReadFailed);
          LoopStops(all, issued, script, size);
          DeliveredAll(failure, all, issued);
          break;
        }
        var count := if result.Chunk? then |result.data| else -1;
        if count <= 0 {
          LoopStops(all, issued, script, size);
          DeliveredAll(failure, all, issued);
          break;
        } else if count < size {
          LoopStops(all, issued, script, size);
          var ok := channel.Write(result.data[..count]);
          assert result.data[..count] == result.data;
          if ok {
            WriteAppends(initial, writes0, issued, result.data);
            issued := issued + [result.data];
            DeliveredAll(failure, all, issued);
          } else {
            failure := Some(WriteFailed);
            DeliveredPrefix(all, issued, [result.data]);
          }
          break;
        } else {
          LoopContinues(all, issued, script, size);
          var ok := channel.Write(result.data);
          if !ok {
            failure := Some(WriteFailed);
            break;
          }
          WriteAppends(initial, writes0, issued, result.data);
          issued := issued + [result.data];
        }
      }
      IssuedWritesBounded(failure, script0, size, issued);
    }

    /**
     * What process leaves in the files, given the files `files0` and the
     * body's read script when it began, the directories once the target's
     * directory is built, the target's absolute path and the writes that
     * succeeded: when the target cannot be opened, nothing is written or
     * changed; otherwise the target alone has changed, to its initial
     * contents followed by the writes that succeeded, which are none when
     * the buffer cannot be allocated and those the copy loop delivered
     * otherwise.
     */
    ghost predicate Outcome(path: string, files0: map<string, Bytes>, script: seq<ReadResult>,
                            dirs: set<string>, files: map<string, Bytes>,
                            failure: Option<Failure>, issued: seq<Bytes>)
    {
      (!CanOpen(dirs, path) ==> failure == Some(OpenFailed) && files == files0 && issued == []) &&
      (CanOpen(dirs, path) ==>
        path in files && files == files0[path := files[path]] &&
        files[path] == InitialContents(append, files0, path) + Flatten(issued) &&
        (bufferSize < 0 ==> failure == Some(NegativeBufferSize) && issued == []) &&
        (bufferSize >= 0 ==> Delivered(failure, CopyLoop(script, bufferSize), issued)))
    }

    /** The files once the channel on an openable target has been closed, from what the channel holds. */
    lemma OutcomeOfChannel(path: string, files0: map<string, Bytes>, script: seq<ReadResult>, dirs: set<string>,
                           contents: Bytes, failure: Option<Failure>, issued: seq<Bytes>)
      requires CanOpen(dirs, path)
      requires contents == InitialContents(append, files0, path) + Flatten(issued)
      requires bufferSize < 0 ==> failure == Some(NegativeBufferSize) && issued == []
      requires bufferSize >= 0 ==> Delivered(failure, CopyLoop(script, bufferSize), issued)
      ensures Outcome(path, files0, script, dirs, files0[path := contents], failure, issued)
    {
    }

    /**
     * A body that fills every read it can, handing over `payload` of k full
     * buffers and r further bytes: a read error never happens, and unless a
     * write fails, the writes are k full buffers and then the r bytes when
     * r > 0, and the target ends up holding its initial contents followed
     * by the whole payload.
     */
    lemma WholePayloadStored(path: string, files0: map<string, Bytes>, payload: Bytes, k: nat, r: nat,
                             dirs: set<string>, files: map<string, Bytes>,
                             failure: Option<Failure>, issued: seq<Bytes>)
      requires bufferSize > 0 && r < bufferSize && |payload| == k * bufferSize + r && CanOpen(dirs, path)
      requires Outcome(path, files0, Stream(Split(payload, bufferSize)), dirs, files, failure, issued)
      ensures failure == None || failure == Some(WriteFailed)
      ensures failure == None ==>
        |issued| == k + (if r == 0 then 0 else 1) &&
        (forall i :: 0 <= i < k ==> |issued[i]| == bufferSize) &&
        (r > 0 ==> |issued[k]| == r) &&
        files[path] == InitialContents(append, files0, path) + payload
    {
      var chunks := Split(payload, bufferSize);
      SplitProperties(payload, bufferSize);
      CopyLoopCopiesFullReads(chunks, bufferSize);
      SplitShape(payload, bufferSize, k, r);
    }

    /**
     * The try block of process on the target's absolute path: open the
     * channel (appending or truncating), allocate the buffer and run the
     * copy loop. The channel comes back so that the finally block can close
     * it; the files are as Outcome says once it is.
     */
    method WriteBody(body: InputStream, fs: FileSystem, path: string)
      returns (failure: Option<Failure>, fc: FileChannel?, ghost issued: seq<Bytes>)
      requires fs.Valid() && !body.closed
      requires bufferSize >= 0 ==> ChunksFit(body.pending, bufferSize)
      modifies fs`files, fs`openChannels, body`pending
      ensures fs.Valid() && !body.closed
      ensures fc == null ==>
        Outcome(path, old(fs.files), old(body.pending), fs.dirs, fs.files, failure, issued) &&
        fs.openChannels == old(fs.openChannels)
      ensures fc != null ==>
        fresh(fc) && fc.path == path && fc.writes == issued &&
        fs.openChannels == old(fs.openChannels) + multiset{path} &&
        Outcome(path, old(fs.files), old(body.pending), fs.dirs, fs.files[path := fc.contents], failure, issued)
    {
      ghost var files0, script0 := fs.files, body.pending;
      fc := fs.Open(path, append);
      issued := [];
      if fc == null {
        failure := Some(OpenFailed);
        return;
      }
      if bufferSize < 0 {
        // the channel is already open (and, when overwriting, the file truncated) as new byte[size] throws
        failure := Some(NegativeBufferSize);
        assert fc.contents + Flatten(issued) == fc.contents;
      } else {
        failure, issued := CopyStream(body, fc, bufferSize);
      }
      assert fs.files[path := fc.contents] == files0[path := fc.contents];
      OutcomeOfChannel(path, files0, script0, fs.dirs, fc.contents, failure, issued);
    }

    /**
     * process(FileExchange): the body is fetched before anything else; the
     * target is named and its directory built; the channel is opened
     * (appending or overwriting) and the body copied through a buffer of
     * bufferSize bytes; finally the body stream and, if it was opened, the
     * channel are closed, a failure to close being logged and not rethrown.
     * `issued` is the writes that succeeded, in order.
     */
    method Process(msg: Message, body: InputStream?, fs: FileSystem)
      returns (failure: Option<Failure>, ghost issued: seq<Bytes>)
      requires fs.Valid()
      requires body != null ==> !body.closed
      requires body != null && bufferSize >= 0 ==> ChunksFit(body.pending, bufferSize)
      modifies fs, body
      ensures fs.Valid()
      ensures body == null ==> failure == Some(MissingBody) && issued == [] && unchanged(fs)
      ensures body != null ==> body.closed && fs.openChannels == old(fs.openChannels)
      ensures body != null ==>
        var file := CreateFileName(msg.id, msg.fileName, endpointFile, fs.cwd, old(fs.dirs));
        fs.dirs == DirectoriesAfterBuild(old(fs.dirs), old(fs.files).Keys, Absolute(fs.cwd, file)) &&
        Outcome(OpenedPath(fs.cwd, file), old(fs.files), old(body.pending), fs.dirs, fs.files, failure, issued)
    {
      issued := [];
      if body == null {
        return Some(MissingBody), issued;
      }
      ghost var files0, script0 := fs.files, body.pending;
      var file := CreateFileName(msg.id, msg.fileName, endpointFile, fs.cwd, fs.dirs);
      BuildDirectory(fs, file);
      var path := OpenedPath(fs.cwd, file);
      ghost var dirs1 := fs.dirs;
      var fc;
      failure, fc, issued := WriteBody(body, fs, path);
      ghost var written := if fc == null then fs.files else fs.files[path := fc.contents];
      assert Outcome(path, files0, script0, dirs1, written, failure, issued);
      // finally: close the input, then the channel; close failures are only logged
      var _ := body.Close();
      if fc != null {
        var _ := fs.Close(fc);
      }
      assert fs.files == written && fs.dirs == dirs1;
    }
  }
}
