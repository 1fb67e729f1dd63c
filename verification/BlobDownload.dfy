/**
 `DownloadCtx` and `RegistryClient::downloadBlob` (src/docker/docker.cc): a blob is written to a file while it is
 received, at most up to its expected size, and the file is rewound but not truncated before the one retry.
 */
module BlobDownload {
  import opened Basics

  newtype Byte = n: int | 0 <= n < 256
  type Bytes = seq<Byte>

  /** A piece of a response body as it is handed to the writer; `diskFails` if writing it to the file fails. */
  datatype Chunk = Chunk(data: Bytes, diskFails: bool)

  /** A response: whether it asks for credentials (401) and with a usable Bearer challenge, whether its status counts
      as success, and its body. */
  datatype Response = Response(unauthorized: bool, challenge: bool, success: bool, chunks: seq<Chunk>)

  function Body(chunks: seq<Chunk>): Bytes {
    if chunks == [] then [] else Body(chunks[..|chunks| - 1]) + chunks[|chunks| - 1].data
  }

  lemma {:induction false} BodyGrows(chunks: seq<Chunk>, i: nat)
    requires i <= |chunks|
    ensures |Body(chunks[..i])| <= |Body(chunks)|
    decreases |chunks|
  {
    if i < |chunks| {
      var front := chunks[..|chunks| - 1];
      assert front[..i] == chunks[..i];
      BodyGrows(front, i);
    } else {
      assert chunks[..i] == chunks;
    }
  }

  predicate DiskHolds(response: Response) {
    forall chunk | chunk in response.chunks :: !chunk.diskFails
  }

  datatype Result = Downloaded | NotOpened | NoChallenge | RequestFailed | WrongSize | WrongHash

  class Download {
    const expected: nat
    var file: Bytes
    var pos: nat
    var written: nat
    var hashed: Bytes
    var good: bool

    constructor (expected: nat)
      ensures this.expected == expected && file == [] && pos == written == 0 && hashed == [] && good
    {
      this.expected, file, pos, written, hashed, good := expected, [], 0, 0, [], true;
    }

    /** The file never outgrows the expected size, and its part before the position is what was received and hashed. */
    ghost predicate Valid()
      reads this
    {
      && |file| <= expected
      && (good ==> pos == written == |hashed| <= |file| && file[..pos] == hashed)
    }

    /** Says whether the whole chunk was taken. */
    method Write(chunk: Chunk) returns (taken: bool)
      requires Valid()
      modifies this
      ensures Valid()
      ensures taken ==> good && hashed == old(hashed) + chunk.data && |file| >= |old(file)|
      ensures taken ==> old(good) && |old(hashed)| + |chunk.data| <= expected
      ensures old(good) && !chunk.diskFails ==> good && (taken <==> |old(hashed)| + |chunk.data| <= expected)
      ensures old(good) && |old(hashed)| + |chunk.data| > expected ==> file == old(file) && hashed == old(hashed)
    {
      var received := written + |chunk.data|;
      if received > expected {
        return false;
      }
      if !good {
        return false;
      }
      if chunk.diskFails {
        good := false;
        hashed := hashed + chunk.data;
        return false;
      }
      var end := pos + |chunk.data|;
      file := file[..pos] + chunk.data + (if end <= |file| then file[end..] else []);
      pos := end;
      written := written + |chunk.data|;
      hashed := hashed + chunk.data;
      taken := true;
    }

    /** Back to the beginning of the file; what is in it stays. */
    method Reset()
      requires Valid()
      modifies this
      ensures Valid() && file == old(file) && good == old(good)
      ensures hashed == []
    {
      if good {
        pos := 0;
      }
      hashed, written := [], 0;
    }

    /** One request; the transfer fails as soon as a chunk is not taken. */
    method Request(response: Response) returns (ok: bool)
      requires Valid()
      modifies this
      ensures Valid()
      ensures ok ==> response.success && good && hashed == old(hashed) + Body(response.chunks)
      ensures old(good) && DiskHolds(response) ==>
                good && (ok <==> response.success && |old(hashed)| + |Body(response.chunks)| <= expected)
    {
      for i := 0 to |response.chunks|
        invariant Valid()
        invariant i > 0 || old(good) ==> good
        invariant hashed == old(hashed) + Body(response.chunks[..i])
      {
        assert response.chunks[..i + 1][..i] == response.chunks[..i];
        BodyGrows(response.chunks, i + 1);
        assert response.chunks[i] in response.chunks;
        var taken := Write(response.chunks[i]);
        if !taken {
          return false;
        }
      }
      assert response.chunks[..|response.chunks|] == response.chunks;
      return response.success && good;
    }
  }

  /**
   Downloads a blob of the given size and digest.  After a 401 the request is repeated once, with credentials.
   The file is what is left on disk; `None` if there is none.
   */
  method DownloadBlob(expected: nat, digest: string, sha256: Bytes -> string, isOpen: bool, first: Response,
                      second: Response)
    returns (r: Result, file: Option<Bytes>)
    ensures file.Some? ==> |file.value| <= expected
    ensures r == Downloaded ==>
              && file == Some(Body((if first.unauthorized then second else first).chunks))
              && |file.value| == expected && sha256(file.value) == digest
    ensures r in {WrongSize, WrongHash, NotOpened} ==> file == None
    ensures DiskHolds(first) && DiskHolds(second) ==>
              var last := if first.unauthorized then second else first;
              (r == Downloaded <==>
                && isOpen && (first.unauthorized ==> first.challenge) && last.success
                && |Body(last.chunks)| == expected && sha256(Body(last.chunks)) == digest)
  {
    if !isOpen {
      return NotOpened, None;
    }
    var ctx := new Download(expected);
    var ok := ctx.Request(first);
    ghost var last := first;
    if first.unauthorized {
      if !first.challenge {
        return NoChallenge, Some(ctx.file);
      }
      ctx.Reset();
      ok := ctx.Request(second);
      last := second;
    }
    if !ok {
      return RequestFailed, Some(ctx.file);
    }
    assert ctx.hashed == Body(last.chunks);
    if ctx.written != expected {
      return WrongSize, None;
    }
    if sha256(ctx.hashed) != digest {
      return WrongHash, None;
    }
    assert ctx.file[..ctx.pos] == ctx.file;
    return Downloaded, Some(ctx.file);
  }
}
