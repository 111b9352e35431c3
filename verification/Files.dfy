/**
 AtomicReadFile and AtomicWriteFile on the C# device, stream and record files,
 and the two client loops that fetch a whole stream in chunks.
 */
module Files {
  import opened Wire

  type FileId = nat
  /** The longest array of octets the runtime allocates. */
  const MAX_LENGTH: int := 0x7FFF_FFC7

  const READ_CHUNK: uint32 := 1024
  const MAX_READS: nat := 4096

  datatype Reply =
    | Refused(category: string, code: string)
    | Stream(position: nat, data: Octets, endOfFile: bool)
    | Records(position: nat, blocks: seq<Octets>, endOfFile: bool)
    | Written(start: nat)

  const UNKNOWN_OBJECT: Reply := Refused("object", "unknown-object")
  const WRONG_ACCESS: Reply := Refused("services", "invalid-file-access-method")
  const WRONG_START: Reply := Refused("services", "invalid-file-start-position")
  const UNEXPECTED: Reply := Refused("device", "other")

  /** `count` elements from `position` on, or as many as there are. */
  function Slice<T>(s: seq<T>, position: nat, count: nat): (r: seq<T>)
    requires position <= |s|
  {
    if count < |s| - position then s[position..position + count] else s[position..]
  }

  /** The elements from `start` on replaced by `data`, the rest kept and the sequence extended as needed. */
  function Overwrite<T>(s: seq<T>, start: nat, data: seq<T>): (r: seq<T>)
    requires start <= |s|
  {
    s[..start] + data + if start + |data| < |s| then s[start + |data|..] else []
  }

  class FileServer {
    var files: map<FileId, Octets>
    var recordFiles: map<FileId, seq<Octets>>

    ghost predicate Valid()
      reads this
    {
      forall f | f in files :: |files[f]| <= MAX_LENGTH
    }

    constructor (files: map<FileId, Octets>, recordFiles: map<FileId, seq<Octets>>)
      requires forall f | f in files :: |files[f]| <= MAX_LENGTH
      ensures Valid() && this.files == files && this.recordFiles == recordFiles
    {
      this.files, this.recordFiles := files, recordFiles;
    }

    method OnRead(isStream: bool, file: FileId, position: int32, count: uint32) returns (r: Reply)
      requires Valid()
      ensures r == if file in recordFiles then ReadRecords(recordFiles[file], isStream, position, count)
                   else if file !in files then UNKNOWN_OBJECT
                   else ReadStream(files[file], isStream, position, count)
    {
      if file in recordFiles {
        return ReadRecords(recordFiles[file], isStream, position, count);
      }
      if file !in files {
        return UNKNOWN_OBJECT;
      }
      var content := files[file];
      if !isStream {
        return WRONG_ACCESS;
      }
      if position < 0 || position > |content| {
        return WRONG_START;
      }
      var n := if count < |content| - position then count else |content| - position;
      var chunk := new byte[n](i requires 0 <= i < n => content[position + i]);
      assert chunk[..] == content[position..position + n];
      return Stream(position, chunk[..], position + n >= |content|);
    }

    method OnWrite(isStream: bool, file: FileId, position: int32, blocks: seq<Octets>) returns (r: Reply)
      requires Valid()
      modifies this
      ensures Valid()
      ensures if file in old(recordFiles) then
                files == old(files)
                && r == WriteReply(|old(recordFiles)[file]|, !isStream, position)
                && recordFiles ==
                   if r.Written? then old(recordFiles)[file := Overwrite(old(recordFiles)[file], r.start, blocks)]
                                  else old(recordFiles)
              else
                recordFiles == old(recordFiles)
                && if file !in old(files) then r == UNKNOWN_OBJECT && files == old(files)
                   else r == StreamWriteReply(|old(files)[file]|, isStream, position, blocks)
                        && files ==
                           if r.Written? then old(files)[file := Overwrite(old(files)[file], r.start, blocks[0])]
                                    else old(files)
    {
      if file in recordFiles {
        r := WriteRecords(isStream, file, position, blocks);
        return;
      }
      if file !in files {
        return UNKNOWN_OBJECT;
      }
      if !isStream || |blocks| != 1 {
        return WRONG_ACCESS;
      }
      var content, block := files[file], blocks[0];
      assert block in blocks;
      var start := if position == -1 then |content| else position;
      if start < 0 || start > |content| {
        return WRONG_START;
      }
      var n := |block|;
      if start + n > MAX_LENGTH {
        return UNEXPECTED;
      }
      var updated := new byte[if |content| < start + n then start + n else |content|];
      forall i | 0 <= i < |content| {
        updated[i] := content[i];
      }
      forall i | 0 <= i < n {
        updated[start + i] := block[i];
      }
      assert updated[..] == Overwrite(content, start, block);
      files := files[file := updated[..]];
      return Written(start);
    }

    method WriteRecords(isStream: bool, file: FileId, position: int32, blocks: seq<Octets>) returns (r: Reply)
      requires Valid() && file in recordFiles
      modifies this`recordFiles
      ensures Valid()
      ensures r == WriteReply(|old(recordFiles)[file]|, !isStream, position)
      ensures recordFiles ==
              if r.Written? then old(recordFiles)[file := Overwrite(old(recordFiles)[file], r.start, blocks)]
                             else old(recordFiles)
    {
      hide Overwrite;
      if isStream {
        return WRONG_ACCESS;
      }
      var records := recordFiles[file];
      var start := if position == -1 then |records| else position;
      if start < 0 || start > |records| {
        return WRONG_START;
      }
      OverwriteNothing(records, start);
      for i := 0 to |blocks|
        invariant recordFiles == old(recordFiles)
        invariant records == Overwrite(old(recordFiles)[file], start, blocks[..i])
      {
        assert blocks[..i + 1] == blocks[..i] + [blocks[i]];
        OverwriteOneMore(old(recordFiles)[file], start, blocks[..i], blocks[i]);
        if start + i < |records| {
          records := records[start + i := blocks[i]];
        } else {
          records := records + [blocks[i]];
        }
      }
      assert blocks[..|blocks|] == blocks;
      recordFiles := recordFiles[file := records];
      return Written(start);
    }
  }

  // ----- What the replies say -----

  function ReadStream(content: Octets, isStream: bool, position: int32, count: uint32): Reply {
    if !isStream then WRONG_ACCESS
    else if position < 0 || position > |content| then WRONG_START
    else Stream(position, Slice(content, position, count), |content| - position <= count)
  }

  function ReadRecords(records: seq<Octets>, isStream: bool, position: int32, count: uint32): Reply {
    if isStream then WRONG_ACCESS
    else if position < 0 || position > |records| then WRONG_START
    else Records(position, Slice(records, position, count), |records| - position <= count)
  }

  /** The answer to a write to a file of `length`; position -1 appends. */
  function WriteReply(length: nat, access: bool, position: int32): (r: Reply)
    ensures r.Written? ==> r.start <= length
  {
    var start := if position == -1 then length else position;
    if !access then WRONG_ACCESS
    else if start < 0 || start > length then WRONG_START
    else Written(start)
  }

  /** A stream takes one block at a time, and does not outgrow the longest array. */
  function StreamWriteReply(length: nat, isStream: bool, position: int32, blocks: seq<Octets>): (r: Reply)
    ensures r.Written? ==> |blocks| == 1 && r.start <= length && r.start + |blocks[0]| <= MAX_LENGTH
  {
    var r := WriteReply(length, isStream && |blocks| == 1, position);
    if r.Written? && r.start + |blocks[0]| > MAX_LENGTH then UNEXPECTED else r
  }

  lemma OverwriteNothing<T>(s: seq<T>, start: nat)
    requires start <= |s|
    ensures Overwrite(s, start, []) == s
  {
  }

  lemma OverwriteOneMore<T>(s: seq<T>, start: nat, data: seq<T>, x: T)
    requires start <= |s|
    ensures var r, end := Overwrite(s, start, data), start + |data|;
            end <= |r| && Overwrite(s, start, data + [x]) == if end < |r| then r[end := x] else r + [x]
  {
  }

  /** A write leaves a prefix and a suffix alone, and reading its range returns what was written. */
  lemma OverwriteReadsBack<T>(s: seq<T>, start: nat, data: seq<T>)
    requires start <= |s|
    ensures var r := Overwrite(s, start, data);
            |r| == (if |s| < start + |data| then start + |data| else |s|)
            && r[start..start + |data|] == data && r[..start] == s[..start]
            && (start + |data| <= |s| ==> r[start + |data|..] == s[start + |data|..])
  {
  }

  /** What a read of a stream answers: the errors in their order, then the octets asked for or all that are left. */
  lemma StreamReadsExactly(content: Octets, isStream: bool, position: int32, count: uint32)
    ensures ReadStream(content, isStream, position, count) ==
            if !isStream then Refused("services", "invalid-file-access-method")
            else if position < 0 || position > |content| then Refused("services", "invalid-file-start-position")
            else if position + count < |content| then Stream(position, content[position..position + count], false)
            else Stream(position, content[position..], true)
  {
  }

  /** The same of records. */
  lemma RecordReadsExactly(records: seq<Octets>, isStream: bool, position: int32, count: uint32)
    ensures ReadRecords(records, isStream, position, count) ==
            if isStream then Refused("services", "invalid-file-access-method")
            else if position < 0 || position > |records| then Refused("services", "invalid-file-start-position")
            else if position + count < |records| then Records(position, records[position..position + count], false)
            else Records(position, records[position..], true)
  {
  }

  /** What a write of blocks to a stream answers. */
  lemma StreamWritesExactly(length: nat, isStream: bool, position: int32, blocks: seq<Octets>)
    ensures StreamWriteReply(length, isStream, position, blocks) ==
            if !isStream || |blocks| != 1 then Refused("services", "invalid-file-access-method")
            else if position < -1 || position > length then Refused("services", "invalid-file-start-position")
            else
              var start := if position == -1 then length else position;
              if start + |blocks[0]| > 0x7FFF_FFC7 then Refused("device", "other") else Written(start)
  {
  }

  /** Writing the same data twice is writing it once, and writing back what was read changes nothing. */
  lemma OverwriteIsIdempotent<T>(s: seq<T>, start: nat, data: seq<T>, count: nat)
    requires start <= |s|
    ensures Overwrite(Overwrite(s, start, data), start, data) == Overwrite(s, start, data)
    ensures Overwrite(s, start, Slice(s, start, count)) == s
  {
  }

  /**
   A write to a stream lands at the position asked for, or at the end for -1, and
   replaces what stood there; the rest of that file and every other file stay;
   and what was written is read back from there.
   */
  method StreamReadsBack(server: FileServer, file: FileId, position: int32, block: Octets)
      returns (written: Reply, read: Reply)
    requires server.Valid()
    modifies server
    ensures server.Valid() && server.recordFiles == old(server.recordFiles)
    ensures if file in old(server.recordFiles) then written == Refused("services", "invalid-file-access-method")
            else if file !in old(server.files) then written == Refused("object", "unknown-object")
            else
              var was := old(server.files)[file];
              var start := if position == -1 then |was| else position;
              if start < 0 || start > |was| then written == Refused("services", "invalid-file-start-position")
              else if start + |block| > 0x7FFF_FFC7 then written == Refused("device", "other")
              else
                var rest := if start + |block| < |was| then was[start + |block|..] else [];
                && written == Written(start)
                && server.files == old(server.files)[file := was[..start] + block + rest]
                && read == Stream(start, block, rest == [])
    ensures !written.Written? ==> read == written && server.files == old(server.files)
  {
    written := server.OnWrite(true, file, position, [block]);
    if !written.Written? {
      return written, written;
    }
    hide Slice;
    OverwriteReadsBack(old(server.files)[file], written.start, block);
    StreamReadsExactly(server.files[file], true, written.start, |block|);
    hide ReadStream;
    read := server.OnRead(true, file, written.start, |block|);
  }

  /** The same of records, as many as are written at once. */
  method RecordsReadBack(server: FileServer, file: FileId, position: int32, blocks: seq<Octets>)
      returns (written: Reply, read: Reply)
    requires server.Valid() && |blocks| <= 0xFFFF_FFFF
    requires file in server.recordFiles ==> |server.recordFiles[file]| <= 0x7FFF_FFFF
    modifies server
    ensures server.Valid() && server.files == old(server.files)
    ensures if file in old(server.recordFiles) then
              var was := old(server.recordFiles)[file];
              var start := if position == -1 then |was| else position;
              if start < 0 || start > |was| then written == Refused("services", "invalid-file-start-position")
              else
                var rest := if start + |blocks| < |was| then was[start + |blocks|..] else [];
                && written == Written(start)
                && server.recordFiles == old(server.recordFiles)[file := was[..start] + blocks + rest]
                && read == Records(start, blocks, rest == [])
            else if file !in old(server.files) then written == Refused("object", "unknown-object")
            else written == Refused("services", "invalid-file-access-method")
    ensures !written.Written? ==> read == written && server.recordFiles == old(server.recordFiles)
  {
    written := server.OnWrite(false, file, position, blocks);
    if !written.Written? {
      return written, written;
    }
    hide Slice;
    OverwriteReadsBack(old(server.recordFiles)[file], written.start, blocks);
    RecordReadsExactly(server.recordFiles[file], false, written.start, |blocks|);
    hide ReadRecords;
    read := server.OnRead(false, file, written.start, |blocks|);
  }

  // ----- The clients -----

  /** The Python client: chunks until the end of the file, or the first refusal. */
  method FetchStream(server: FileServer, file: FileId, start: int32, chunk: uint32) returns (r: Reply)
    requires server.Valid() && chunk > 0
    ensures file in server.files && file !in server.recordFiles && 0 <= start <= |server.files[file]| ==>
              r == Stream(start, server.files[file][start..], true)
    ensures !(file in server.files && file !in server.recordFiles && 0 <= start <= |server.files[file]|) ==> r.Refused?
  {
    var data, pos := [], start;
    while true
      invariant pos == start + |data|
      invariant data == []
              || (file in server.files && file !in server.recordFiles && 0 <= start && pos <= |server.files[file]|
                               && data == server.files[file][start..pos])
      decreases if file in server.files then |server.files[file]| - pos else 0, data == []
    {
      var reply := server.OnRead(true, file, pos, chunk);
      if reply.Refused? {
        return reply;
      }
      ghost var content := server.files[file];
      assert reply.data == content[pos..pos + |reply.data|];
      assert content[start..pos] + content[pos..pos + |reply.data|] == content[start..pos + |reply.data|];
      data := data + reply.data;
      pos := pos + |reply.data|;
      if reply.endOfFile || reply.data == [] {
        return Stream(start, data, true);
      }
    }
  }

  /** The Java client gives up after 4096 chunks. */
  method FetchBounded(server: FileServer, file: FileId, from: int32) returns (r: Reply)
    requires server.Valid()
    ensures file in server.files && file !in server.recordFiles && 0 <= from <= |server.files[file]| ==>
              var rest := server.files[file][from..];
              r == if |rest| <= 4_194_304 then Stream(from, rest, true) else Stream(from, rest[..4_194_304], false)
    ensures !(file in server.files && file !in server.recordFiles && 0 <= from <= |server.files[file]|) ==> r.Refused?
  {
    var out, start: int := [], from;
    for i := 0 to MAX_READS
      invariant start == from + |out| && (i == 0 ==> out == [])
      invariant i > 0 ==> file in server.files && file !in server.recordFiles && 0 <= from
                          && start < |server.files[file]| && |out| == i * READ_CHUNK
                             && out == server.files[file][from..start]
    {
      var reply := server.OnRead(true, file, start, READ_CHUNK);
      if reply.Refused? {
        return reply;
      }
      out := out + reply.data;
      start := start + |reply.data|;
      if reply.endOfFile || reply.data == [] {
        return Stream(from, out, true);
      }
    }
    return Stream(from, out, false);
  }

  /** So the Java client gets the whole rest of a stream exactly when it is at most 4 MiB long. */
  lemma BoundedFetchIsCompleteExactly(content: Octets, from: nat)
    requires from <= |content|
    ensures Slice(content, from, 4_194_304) == content[from..] <==> |content| - from <= 4_194_304
    ensures MAX_READS * READ_CHUNK == 4_194_304
  {
  }
}
