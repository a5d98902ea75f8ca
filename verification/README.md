# File producer of the Camel file component

This project models `FileProducer` of the Apache Camel file component. The
producer writes the body of each message it receives to a file. It does three
things:

- **Names the target file** (`createFileName`). A file name header wins over
  the endpoint's file. A name that turns out to be an existing directory
  gets the message id appended. An endpoint file that is not a directory is
  ignored when there is no header.
- **Builds the target's directory** (`buildDirectory`). It takes the absolute
  path and runs `mkdirs` on everything before the last separator. It does
  this only when that separator is not the first character, and it ignores
  the result of `mkdirs`.
- **Processes the message** (`process`). It fetches the mandatory body. It
  opens a channel on the target, appending or truncating. It copies the body
  through a buffer of the endpoint's buffer size. Then, in a `finally` block,
  it closes the body stream and the channel, logging close failures.

The model has these parts:

- `Paths`: path strings and the `java.io.File` operations the producer uses.
- `Streams`: the message body, an `InputStream` whose successive
  `read(buffer)` results are given in advance as a script.
- `Files`: the filesystem. It has a class with the existing directories, the
  file contents and the open channels, and a `FileChannel` class.
- `Transfer`: the copy loop as a function of the read script and the buffer
  size. This is the specification the imperative loop is proved against,
  together with its properties.
- `FileComponent`: `createFileName` as a function and its lemmas. It also
  has a `FileProducer` class holding the endpoint's configuration, with
  `buildDirectory`, the copy loop and `process` as methods.

Device failures are nondeterministic: a write or a close may fail. The
contracts cover every outcome.

On these points the model follows what the code does:

- There is no separate "destination unavailable" failure. The result of
  `mkdirs` is ignored, and a directory that could not be built shows up as a
  failure to open the file.
- The copy stops at the first read that does not fill the buffer, not at the
  end of the input (see Findings).
- The buffer size is not required to be positive. A negative size fails only
  after the channel is open, so in overwrite mode the file has already been
  truncated by then.

## Model

| member | source | states |
|---|---|---|
| Paths.Child | camel-core/src/main/java/org/apache/camel/component/file/FileProducer.java:153-165 | `new File(parent, child)`: without a parent the child itself; with one and an empty child, the parent itself (the root for an empty parent); otherwise the parent, a single separator and the child's name (without a separator it begins with), where an empty parent or the root contributes only the separator; the result is absolute when the parent is empty or absolute |
| Paths.Absolute | camel-core/src/main/java/org/apache/camel/component/file/FileProducer.java:170 | an absolute path is kept; a relative one is resolved under the working directory; the result is absolute when the working directory is |
| Paths.LastIndexOf | camel-core/src/main/java/org/apache/camel/component/file/FileProducer.java:171 | the result is -1 exactly when the character does not occur; otherwise it is a position holding it, with no occurrence after it |
| Paths.ParentDirectory | camel-core/src/main/java/org/apache/camel/component/file/FileProducer.java:170-173 | there is no directory exactly when no separator occurs past the first character; otherwise the directory is the non-empty prefix before the last separator |
| Paths.Ancestors | camel-core/src/main/java/org/apache/camel/component/file/FileProducer.java:175 | the directories mkdirs has to make are exactly the non-empty prefixes of the path that end at a separator or at its end, the path included |
| Paths.AncestorsClosed | camel-core/src/main/java/org/apache/camel/component/file/FileProducer.java:175 | every ancestor of an ancestor of a path is an ancestor of the path |
| Paths.ParentOfChild | camel-core/src/main/java/org/apache/camel/component/file/FileProducer.java:155-162 | for a file named inside a directory other than the empty path and the root, with a non-empty name holding no separator, the directory built for it is that directory |
| Files.CanOpen | camel-core/src/main/java/org/apache/camel/component/file/FileProducer.java:69-75 | a file can be opened exactly when the path is not empty (the empty path names no file), neither the root nor an existing directory, and the prefix before its last separator, if that separator is not the first character, is an existing directory (the root always is) |
| Files.DirsAfterMkdirs | camel-core/src/main/java/org/apache/camel/component/file/FileProducer.java:174-175 | mkdirs only adds directories, only ancestors of its target, never a path that is a regular file, and all of them when no regular file is in the way |
| Files.MkdirsIdempotent | camel-core/src/main/java/org/apache/camel/component/file/FileProducer.java:175 | a second mkdirs of the same directory changes nothing |
| Files.FileSystem.Mkdirs | camel-core/src/main/java/org/apache/camel/component/file/FileProducer.java:175 | the directories become those of DirsAfterMkdirs; the result says whether the target itself was created; the filesystem stays valid |
| Files.FileSystem.Open | camel-core/src/main/java/org/apache/camel/component/file/FileProducer.java:69-75 | a channel exists exactly when CanOpen holds; it starts with no writes, from the old contents in append mode and from nothing otherwise; the file is created or truncated accordingly; nothing changes on failure |
| Files.FileSystem.Close | camel-core/src/main/java/org/apache/camel/component/file/FileProducer.java:104-111 | the file holds what was written through the channel, and the channel is released even if closing reports an error |
| Files.FileChannel.Write | camel-core/src/main/java/org/apache/camel/component/file/FileProducer.java:84-91 | a successful write appends exactly the data to the contents and records it as one more write; a failed one leaves both as they were |
| Streams.InputStream.Read | camel-core/src/main/java/org/apache/camel/component/file/FileProducer.java:80 | each read consumes the next scripted result; a stream that has run out reports its end |
| Streams.InputStream.Close | camel-core/src/main/java/org/apache/camel/component/file/FileProducer.java:96-103 | the stream is closed whether or not the close reports an error |
| Transfer.CopyLoop | camel-core/src/main/java/org/apache/camel/component/file/FileProducer.java:79-93 | the loop issues at most one write per read |
| Transfer.CopyLoopWritesBounded | camel-core/src/main/java/org/apache/camel/component/file/FileProducer.java:76-93 | when reads never exceed the buffer, every write is non-empty and at most the buffer size, and every write but the last fills the buffer |
| Transfer.FirstNonFull | camel-core/src/main/java/org/apache/camel/component/file/FileProducer.java:81-92 | every read before the index fills the buffer, and the read at the index does not |
| Transfer.CopyLoopStopsAtFirstNonFull | camel-core/src/main/java/org/apache/camel/component/file/FileProducer.java:79-93 | the writes are the payloads of the full reads before the first non-full read, followed by that read's bytes when it returned some; the loop fails exactly when that read is an error |
| Transfer.CopyLoopIgnoresRest | camel-core/src/main/java/org/apache/camel/component/file/FileProducer.java:81-88 | once a read does not fill the buffer, nothing the stream would deliver afterwards affects the copy |
| Transfer.CopyLoopCopiesFullReads | camel-core/src/main/java/org/apache/camel/component/file/FileProducer.java:79-93 | on a stream whose reads fill the buffer until the last, the loop writes every chunk, in order, and does not fail |
| Transfer.CopyLoopRoundTrip | camel-core/src/main/java/org/apache/camel/component/file/FileProducer.java:76-93 | a payload of k full buffers plus r < size bytes, from a stream that fills every read it can, is written as k full writes and one r-byte write when r > 0, and the bytes written are the payload |
| Transfer.CopyLoopLosesDataAfterShortRead | camel-core/src/main/java/org/apache/camel/component/file/FileProducer.java:84-88 | reads of one byte and then one more, with a two-byte buffer, fit the buffer, yet only the first byte is written |
| Transfer.CopyUntilEnd | camel-core/src/main/java/org/apache/camel/component/file/FileProducer.java:79-93 | the transfer that reads until the stream reports its end issues at most one write per read |
| Transfer.CopyUntilEndCopiesEverything | camel-core/src/main/java/org/apache/camel/component/file/FileProducer.java:79-93 | whatever sizes the reads return, the transfer that reads until the end writes every chunk in order and does not fail |
| FileComponent.IsDirectory | camel-core/src/main/java/org/apache/camel/component/file/FileProducer.java:154-161 | `File.isDirectory`: the empty path is never a directory; an absolute path is one exactly when it is the root or an existing directory; any other relative path is looked up under the working directory |
| FileComponent.CreateFileName | camel-core/src/main/java/org/apache/camel/component/file/FileProducer.java:147-167 | with a header, the name is the header under the endpoint file, or the message id inside it when that is an existing directory; without one, it is the message id inside the endpoint file when that is an existing directory, and the bare message id otherwise |
| FileComponent.CreateFileNameProbesOnePath | camel-core/src/main/java/org/apache/camel/component/file/FileProducer.java:151-166 | the name depends on the filesystem only through whether the one probed path is a directory, so with a header the endpoint file's own kind never matters |
| FileComponent.PlainEndpointFileIgnored | camel-core/src/main/java/org/apache/camel/component/file/FileProducer.java:161-166 | without a header, an endpoint file that is not a directory gives the same name as no endpoint file: the message id |
| FileComponent.EmptyHeaderNamesEndpointFile | camel-core/src/main/java/org/apache/camel/component/file/FileProducer.java:152-158 | an empty header names the endpoint file itself, so a directory endpoint gets the message id inside it and a file endpoint is written itself; with no endpoint file the name is empty, and no file can be opened under it |
| FileComponent.RootEndpointNamesFileUnderRoot | camel-core/src/main/java/org/apache/camel/component/file/FileProducer.java:161-162 | an endpoint on the root, which always exists as a directory, names each file directly under it (an absolute message id stays as it is), and a relative name resolves under a root working directory with a single separator |
| FileComponent.CreateFileNameEndsInIdOrHeader | camel-core/src/main/java/org/apache/camel/component/file/FileProducer.java:147-167 | the name always ends in the message id or in the header |
| FileComponent.BuildDirectoryCreatesParent | camel-core/src/main/java/org/apache/camel/component/file/FileProducer.java:169-177 | building adds only the parent and its ancestors, adds all of them when no regular file is in the way, and changes nothing when there is no separator past the first character |
| FileComponent.BuildDirectoryIdempotent | camel-core/src/main/java/org/apache/camel/component/file/FileProducer.java:169-177 | building the directory a second time leaves the directories as after the first |
| FileComponent.BuildDirectoryEnablesOpen | camel-core/src/main/java/org/apache/camel/component/file/FileProducer.java:63-75 | once the directory is built, a target that is not a directory can be opened, unless a regular file stands on its parent's path |
| FileComponent.IssuedWritesBounded | camel-core/src/main/java/org/apache/camel/component/file/FileProducer.java:76-93 | when no read returns more than the buffer holds, the writes that succeeded, whatever the loop ended in, are each non-empty and at most the buffer size, and all but the last fill the buffer |
| FileComponent.InitialContents | camel-core/src/main/java/org/apache/camel/component/file/FileProducer.java:69-75 | the channel starts from the file's contents in append mode when the file exists, and from nothing when overwriting or creating |
| FileComponent.FileProducer.BuildDirectory | camel-core/src/main/java/org/apache/camel/component/file/FileProducer.java:169-177 | the directories become those DirectoriesAfterBuild gives for the absolute path; files are untouched |
| FileComponent.FileProducer.CopyStream | camel-core/src/main/java/org/apache/camel/component/file/FileProducer.java:76-93 | the writes the channel receives are exactly those CopyLoop issues when the loop succeeds or a read fails, and a proper prefix of them when a write fails, one channel write per loop write, and the channel's contents grow by exactly their bytes; the failure reported matches; the writes are non-empty, at most the buffer size, and full but for the last |
| FileComponent.FileProducer.WriteBody | camel-core/src/main/java/org/apache/camel/component/file/FileProducer.java:67-94 | no channel and nothing changed when the target cannot be opened; otherwise an open channel on the target, truncated or kept per the append flag, whose writes are the ones that succeeded: none when the buffer size is negative, and those CopyStream delivers otherwise |
| FileComponent.FileProducer.WholePayloadStored | camel-core/src/main/java/org/apache/camel/component/file/FileProducer.java:69-93 | for a body that fills every read it can and a payload of k full buffers and r more bytes, a read failure is impossible, and a successful process writes k full buffers and then the r bytes when r > 0, leaving the target holding its previous contents (append) or nothing (overwrite) followed by the whole payload |
| FileComponent.FileProducer.Process | camel-core/src/main/java/org/apache/camel/component/file/FileProducer.java:60-112 | a missing body fails before anything is touched; otherwise the directory is built for the absolute path of the name createFileName gives, the file opened is that path (none for an empty name, which fails to open), only the target file changes, as Outcome says, and the body stream and every channel opened are closed on every path |

## Left out

- Real I/O is not modelled. Files, directories, streams and channels are
  abstract state: a directory set, a map from absolute path to bytes, a
  multiset of open channels and a read script.
- Path normalisation is not modelled beyond what `new File(parent, child)`
  does with an empty or root parent, an empty child or a child that begins
  with a separator: doubled or trailing separators inside names, `.` and
  `..`, drive letters and symbolic links are kept as they are. Paths are
  plain strings, and `Paths.Child` joins them with `/`.
- Permissions, and any other reason besides a missing parent or an existing
  directory that makes `mkdirs` or opening a file fail, are not modelled.
- The Exchange plumbing is reduced to inputs: the message id, the optional
  file name header and the body, which may be missing. This covers
  `process(Exchange)` and `toExchangeType` (lines 56-58), header conversion
  and the endpoint getters.
- Logging is left out. It has no effect beyond close failures not being
  rethrown.
- The commented-out implementation at lines 113-144 is dead code and is not
  modelled.
- Concurrent writers to the same path are not modelled; the code has no
  synchronisation.
- Files.FileChannel.Write: a failing write is modelled as writing nothing.
  A device error part-way through one write, which could leave part of that
  write on disk, is not modelled.
- Files.FileChannel.Write: the channel's contents reach the file map when the
  channel is closed. What another reader would see while the copy is still
  running is not modelled.
- `fc.position(fc.size())` (line 71) is not a separate step. It cannot fail
  in the model, and an append-mode channel starts at the end of the file.
- The buffer size in `Transfer.CopyLoop` is a natural number. A read on a
  zero-size buffer returns 0, which the script expresses as an empty chunk
  (`Transfer.ChunksFit`).
- FileComponent.FileProducer.CopyStream, FileComponent.FileProducer.WriteBody
  and FileComponent.FileProducer.Process require that no read returns more
  bytes than the buffer holds (`Transfer.ChunksFit`), as
  `InputStream.read(byte[])` guarantees. A stream that broke that guarantee
  is not modelled.
- The root directory always exists (`Files.DirectoryExists`), whatever the
  directory set holds; a regular file at the root is not modelled.
- The message body is a finite read script, so a body that never reports
  its end cannot be expressed; on such a body the `while (true)` loop at
  line 79 would run forever. FileComponent.FileProducer.CopyStream
  terminates because the script is finite.
- Time and randomness play no part. Device failures are nondeterministic
  choices inside the write and close operations.

## Findings

| source | as written | input that shows it | evidently intended | confidence | as-written member | corrected member |
|---|---|---|---|---|---|---|
| camel-core/src/main/java/org/apache/camel/component/file/FileProducer.java:84-88 | a read that returns fewer bytes than the buffer holds is written and ends the loop | a body whose reads return one byte and then one more, with a two-byte buffer: only the first byte reaches the file | keep reading until the stream reports its end, since `InputStream.read` may return fewer bytes than asked for before the end | not executed | Transfer.CopyLoopLosesDataAfterShortRead | Transfer.CopyUntilEndCopiesEverything |

`FileComponent.FileProducer.Process` follows the code as written: its copy is
`Transfer.CopyLoop`. `Transfer.CopyUntilEnd` is the corrected transfer, and
`Transfer.CopyUntilEndCopiesEverything` proves that it delivers every chunk.
`Transfer.CopyLoopCopiesFullReads` and `Transfer.CopyLoopRoundTrip` prove
that the loop as written is correct on streams that fill every read but the
last.
