/**
 * The download loop the five pipelines share: an 8 KiB buffer is filled by
 * the response body's reader, each filled part is appended to the
 * destination file, and an optional progress bar is advanced by its length;
 * the first empty read ends the copy, a read error aborts it.
 */
module Transfer {
  import opened Common

  /** The size of the copy buffer, `[0u8; 8 * 1024]`. */
  const ChunkSize: nat := 8 * 1024

  /** What `Read::read` returns: a byte count or an I/O error. */
  datatype ReadResult = Bytes(n: nat) | IoError

  /** An HTTP response body read through `std::io::Read`. `body` is what the
      server sends; when `dropAt` is `Some(d)` with `d < |body|`, the connection
      fails once `d` bytes have been delivered. */
  class ResponseBody {
    const body: seq<byte>
    const dropAt: Option<nat>
    var pos: nat

    /** How many bytes can be delivered before the body ends or the connection fails. */
    function Limit(): nat
    {
      match dropAt
      case None => |body|
      case Some(d) => if d < |body| then d else |body|
    }

    ghost predicate Valid()
      reads this
    {
      pos <= Limit()
    }

    constructor (body: seq<byte>, dropAt: Option<nat>)
      ensures this.body == body && this.dropAt == dropAt && pos == 0 && Valid()
    {
      this.body := body;
      this.dropAt := dropAt;
      pos := 0;
    }

    /** Fills a prefix of `buf` with the next bytes. An empty read means the
        body has ended (or `buf` is empty); an error means the connection failed. */
    method Read(buf: array<byte>) returns (r: ReadResult)
      requires Valid()
      modifies this, buf
      ensures Valid()
      ensures r.Bytes? ==> r.n <= buf.Length && pos == old(pos) + r.n && buf[..r.n] == body[old(pos)..pos]
      ensures r.Bytes? && r.n == 0 ==> buf.Length == 0 || old(pos) == |body|
      ensures old(pos) < Limit() && buf.Length > 0 ==> r.Bytes? && r.n > 0
      ensures r.IoError? ==> pos == old(pos) == Limit() < |body|
    {
      if buf.Length == 0 || pos == |body| {
        r := Bytes(0);
      } else if pos == Limit() {
        r := IoError;
      } else {
        var n := if Limit() - pos < buf.Length then Limit() - pos else buf.Length;
        forall k | 0 <= k < n {
          buf[k] := body[pos + k];
        }
        pos := pos + n;
        r := Bytes(n);
      }
    }
  }

  /** The destination file `<dir>/<name>`, created empty by `File::create`. */
  class DestFile {
    const dir: string
    const name: string
    var contents: seq<byte>

    constructor Create(dir: string, name: string)
      ensures this.dir == dir && this.name == name && contents == []
    {
      this.dir := dir;
      this.name := name;
      contents := [];
    }

    /** `write_all`: the whole slice is appended. */
    method WriteAll(data: seq<byte>)
      modifies this
      ensures contents == old(contents) + data
    {
      contents := contents + data;
    }
  }

  /** The progress indicator; only its position is modelled. */
  class ProgressBar {
    var position: nat

    constructor ()
      ensures position == 0
    {
      position := 0;
    }

    /** `pb.inc(n)` */
    method Inc(n: nat)
      modifies this
      ensures position == old(position) + n
    {
      position := position + n;
    }
  }

  /** The bytes of a chunk sequence, in order. */
  function Concat(chunks: seq<seq<byte>>): seq<byte>
  {
    if chunks == [] then [] else Concat(chunks[..|chunks| - 1]) + chunks[|chunks| - 1]
  }

  /** The copy loop. The file receives every delivered byte in order, the
      progress bar (when there is one) advances by exactly as many, and each
      chunk written is non-empty and at most `ChunkSize` bytes. The copy
      succeeds exactly when the body is read to its end; a failed connection
      leaves the file holding the bytes delivered before the failure. */
  method CopyBody(reader: ResponseBody, file: DestFile, progress: ProgressBar?) returns (ok: bool, ghost chunks: seq<seq<byte>>)
    requires reader.Valid()
    modifies reader, file, progress
    ensures reader.Valid()
    ensures ok <==> reader.Limit() == |reader.body|
    ensures reader.pos == reader.Limit()
    ensures file.contents == old(file.contents) + reader.body[old(reader.pos)..reader.Limit()]
    ensures progress != null ==> progress.position == old(progress.position) + (reader.Limit() - old(reader.pos))
    ensures Concat(chunks) == reader.body[old(reader.pos)..reader.Limit()]
    ensures forall i :: 0 <= i < |chunks| ==> 0 < |chunks[i]| <= ChunkSize
  {
    var buffer := new byte[ChunkSize];
    ghost var start := reader.pos;
    chunks := [];
    while true
      invariant reader.Valid() && start <= reader.pos
      invariant file.contents == old(file.contents) + reader.body[start..reader.pos]
      invariant progress != null ==> progress.position == old(progress.position) + (reader.pos - start)
      invariant Concat(chunks) == reader.body[start..reader.pos]
      invariant forall i :: 0 <= i < |chunks| ==> 0 < |chunks[i]| <= ChunkSize
      decreases reader.Limit() - reader.pos
    {
      var r := reader.Read(buffer);
      if r.IoError? {
        ok := false;
        return;
      }
      var n := r.n;
      if n == 0 {
        break;
      }
      ghost var before := reader.body[start..reader.pos - n];
      assert reader.body[start..reader.pos] == before + buffer[..n];
      file.WriteAll(buffer[..n]);
      if progress != null {
        progress.Inc(n);
      }
      assert (chunks + [buffer[..n]])[..|chunks|] == chunks;
      chunks := chunks + [buffer[..n]];
    }
    ok := true;
  }

  /** One download as the pipelines run it: create `<dir>/<name>`, show a
      progress bar only for an interactive caller (`term`), copy the body. */
  method SaveResponse(reader: ResponseBody, dir: string, name: string, term: bool) returns (file: DestFile, ok: bool)
    requires reader.Valid() && reader.pos == 0
    modifies reader
    ensures fresh(file) && file.dir == dir && file.name == name
    ensures ok <==> reader.Limit() == |reader.body|
    ensures file.contents == reader.body[..reader.Limit()]
    ensures ok ==> file.contents == reader.body
  {
    file := new DestFile.Create(dir, name);
    var progress: ProgressBar? := null;
    if term {
      progress := new ProgressBar();
    }
    ghost var chunks;
    ok, chunks := CopyBody(reader, file, progress);
  }
}
