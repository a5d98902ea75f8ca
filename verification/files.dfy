/**
 * The part of the operating system the producer touches: a set of existing
 * directories, the contents of the existing regular files and the channels
 * open on them, all keyed by absolute path, plus the working directory that
 * relative paths are resolved against.
 */
module Files {
  import opened Wrappers
  import opened Paths
  import opened Streams

  /**
   * File.mkdirs on `dir`: every directory on the way to `dir` is created,
   * from the root down, except where a regular file stands on its own path
   * (creating under a regular file fails, and so does everything below it).
   */
  function DirsAfterMkdirs(dirs: set<string>, files: set<string>, dir: string): (r: set<string>)
    ensures dirs <= r
    ensures r - dirs <= Ancestors(dir)
    ensures dirs !! files ==> r !! files
    ensures Ancestors(dir) !! files ==> Ancestors(dir) <= r
  {
    forall a | a in Ancestors(dir) ensures Ancestors(a) <= Ancestors(dir) {
      AncestorsClosed(a, dir);
    }
    dirs + set a | a in Ancestors(dir) && Ancestors(a) !! files
  }

  /** mkdirs a second time leaves the directories as the first call did. */
  lemma MkdirsIdempotent(dirs: set<string>, files: set<string>, dir: string)
    ensures DirsAfterMkdirs(DirsAfterMkdirs(dirs, files, dir), files, dir) == DirsAfterMkdirs(dirs, files, dir)
  {
  }

  /** Whether the absolute path `path` is an existing directory; the root always is. */
  predicate DirectoryExists(dirs: set<string>, path: string)
  {
    path == [Separator] || path in dirs
  }

  /**
   * Whether `new FileOutputStream(path)` or `new RandomAccessFile(path, "rw")`
   * succeeds: the path must name a file (the empty path names none) that is
   * not a directory, and its parent directory (the root when ParentDirectory
   * gives none) must exist.
   */
  predicate CanOpen(dirs: set<string>, path: string): (r: bool)
    ensures r <==>
      (path != [] && path != [Separator] && path !in dirs &&
       forall i :: 0 < i < |path| && path[i] == Separator && Separator !in path[i + 1..] ==>
         DirectoryExists(dirs, path[..i]))
  {
    path != [] && !DirectoryExists(dirs, path) &&
    match ParentDirectory(path)
    case None => true
    case Some(parent) => DirectoryExists(dirs, parent)
  }

  class FileSystem {
    const cwd: string
    var dirs: set<string>
    var files: map<string, Bytes>
    /** The paths of the file channels currently open, one entry per channel. */
    var openChannels: multiset<string>

    /**
     * No path is both a directory and a regular file, and channels are open
     * on regular files only.
     */
    ghost predicate Valid()
      reads this
    {
      dirs !! files.Keys &&
      forall p :: p in openChannels ==> p in files
    }

    constructor (cwd: string, dirs: set<string>, files: map<string, Bytes>)
      requires dirs !! files.Keys
      ensures Valid()
      ensures this.cwd == cwd && this.dirs == dirs && this.files == files && openChannels == multiset{}
    {
      this.cwd := cwd;
      this.dirs := dirs;
      this.files := files;
      openChannels := multiset{};
    }

    /** File.mkdirs; the result says whether `dir` was created by this call. */
    method Mkdirs(dir: string) returns (created: bool)
      requires Valid()
      modifies this`dirs
      ensures Valid()
      ensures dirs == DirsAfterMkdirs(old(dirs), files.Keys, dir)
      ensures created <==> dir !in old(dirs) && dir in dirs
    {
      created := dir !in dirs;
      dirs := DirsAfterMkdirs(dirs, files.Keys, dir);
      created := created && dir in dirs;
    }

    /**
     * Opens a channel on `path`: in append mode as `new RandomAccessFile(path,
     * "rw")` positioned at the end of the file, otherwise as `new
     * FileOutputStream(path)`, which truncates. Both create a missing file;
     * both fail (FileNotFoundException, leaving the channel null) when
     * CanOpen does not hold.
     */
    method Open(path: string, append: bool) returns (channel: FileChannel?)
      requires Valid()
      modifies this`files, this`openChannels
      ensures Valid()
      ensures channel != null <==> CanOpen(dirs, path)
      ensures channel != null ==>
        fresh(channel) && channel.path == path && channel.writes == [] &&
        channel.contents == (if append && path in old(files) then old(files)[path] else []) &&
        files == old(files)[path := channel.contents] &&
        openChannels == old(openChannels) + multiset{path}
      ensures channel == null ==> openChannels == old(openChannels) && files == old(files)
    {
      if !CanOpen(dirs, path) {
        return null;
      }
      var initial := if append && path in files then files[path] else [];
      channel := new FileChannel(path, initial);
      files := files[path := initial];
      openChannels := openChannels + multiset{path};
    }

    /**
     * FileChannel.close: the channel is released, and the file holds what
     * was written through it, even when the call reports an IOException.
     */
    method Close(channel: FileChannel) returns (ok: bool)
      requires Valid() && channel.path in openChannels
      modifies this`files, this`openChannels
      ensures Valid()
      ensures files == old(files)[channel.path := channel.contents]
      ensures openChannels == old(openChannels) - multiset{channel.path}
    {
      files := files[channel.path := channel.contents];
      openChannels := openChannels - multiset{channel.path};
      ok := *;
    }
  }

  /**
   * A channel open for writing at the end of a file; `contents` is the
   * file as written through it so far.
   */
  class FileChannel {
    const path: string
    var contents: Bytes
    /** The data of every write that succeeded on this channel, one entry per call. */
    ghost var writes: seq<Bytes>

    constructor (path: string, contents: Bytes)
      ensures this.path == path && this.contents == contents && writes == []
    {
      this.path := path;
      this.contents := contents;
      writes := [];
    }

    /**
     * FileChannel.write at the end of the file. A device error (disk full,
     * I/O failure) is `ok == false` and leaves the file as it was.
     */
    method Write(data: Bytes) returns (ok: bool)
      modifies this`contents, this`writes
      ensures ok ==> contents == old(contents) + data && writes == old(writes) + [data]
      ensures !ok ==> contents == old(contents) && writes == old(writes)
    {
      ok := *;
      if ok {
        contents := contents + data;
        writes := writes + [data];
      }
    }
  }
}
