/** `SdkDigestInputStream.skip`: skipping n bytes reads them into a scratch
    buffer of at most `SKIP_BUF_SIZE` bytes, so that the digest still sees
    them, until n bytes are gone or the stream ends. */
module SdkDigestInputStream {

  /** `SKIP_BUF_SIZE`. */
  const SkipBufSize: nat := 2 * 1024

  function Min(a: int, b: int): int {
    if a <= b then a else b
  }

  /** What `skip(n)` returns when `available` bytes are left in the stream:
      n itself when n is not positive, -1 when the stream is already at its
      end, otherwise the number of bytes actually skipped. */
  function SkipResult(n: int, available: nat): int {
    if n <= 0 then n
    else if available == 0 then -1
    else Min(n, available)
  }

  /** The promise of `skip`: nothing is skipped for n <= 0; -1 exactly when a
      positive skip finds the stream at its end; otherwise between 1 and n bytes
      are skipped, all n unless the stream ended first, in which case every
      byte that was left is skipped. */
  lemma SkipResultBounds(n: int, available: nat)
    ensures n <= 0 ==> SkipResult(n, available) == n
    ensures n > 0 ==> (SkipResult(n, available) == -1 <==> available == 0)
    ensures n > 0 && available > 0 ==> 1 <= SkipResult(n, available) <= n
    ensures n > 0 ==> (SkipResult(n, available) == n <==> available >= n)
    ensures n > 0 && 0 <= SkipResult(n, available) < n ==> SkipResult(n, available) == available
  {
  }

  /** One call of `read`: the length asked for, and how many bytes the stream
      still held when it was asked. */
  datatype Request = Request(len: int, left: nat)

  /** The digest stream over its underlying stream: `data` holds the bytes not
      yet read and `digested` the bytes the digest has been updated with; each
      read hands over at most `chunk` bytes. `requests` is the history of the
      calls of `read`. */
  class DigestStream {
    var data: seq<bv8>
    var digested: seq<bv8>
    const chunk: nat
    ghost var requests: seq<Request>

    constructor (data: seq<bv8>, chunk: nat)
      requires chunk > 0
      ensures this.data == data && this.chunk == chunk && digested == [] && requests == []
    {
      this.data := data;
      this.chunk := chunk;
      digested := [];
      requests := [];
    }

    /** `read(b, off, len)` with len > 0: -1 at the end of the stream, and
        otherwise between 1 and len bytes, copied to `b[off..]` and fed to the
        digest. */
    method Read(b: array<bv8>, off: nat, len: nat) returns (count: int)
      requires 0 < len && off + len <= b.Length && chunk > 0
      modifies this, b
      ensures requests == old(requests) + [Request(len, |old(data)|)]
      ensures old(data) == [] ==> count == -1 && data == old(data) && digested == old(digested)
      ensures old(data) != [] ==>
        1 <= count <= len && count == Min(Min(len, chunk), |old(data)|)
        && data == old(data)[count..] && digested == old(digested) + old(data)[..count]
        && b[off..off + count] == old(data)[..count]
    {
      requests := requests + [Request(len, |data|)];
      if data == [] {
        return -1;
      }
      count := Min(Min(len, chunk), |data|);
      forall i | off <= i < off + count {
        b[i] := data[i - off];
      }
      digested := digested + data[..count];
      data := data[count..];
    }

    /** `skip(n)`: returns what `SkipResult` gives for the bytes that were left,
        and exactly the bytes skipped have left the stream and reached the
        digest; every read asks for at least 1 byte and at most
        `min(SKIP_BUF_SIZE, m)`, m being the bytes still to skip when it is
        asked (n less the bytes that had left the stream by then). */
    method Skip(n: int) returns (skipped: int)
      requires chunk > 0
      modifies this
      ensures skipped == SkipResult(n, |old(data)|)
      ensures skipped <= 0 ==> data == old(data) && digested == old(digested)
      ensures skipped > 0 ==> data == old(data)[skipped..] && digested == old(digested) + old(data)[..skipped]
      ensures n <= 0 ==> requests == old(requests)
      ensures |requests| >= |old(requests)| && requests[..|old(requests)|] == old(requests)
      ensures forall k :: |old(requests)| <= k < |requests| ==>
        requests[k].left <= |old(data)|
        && 0 < requests[k].len <= Min(SkipBufSize, n - (|old(data)| - requests[k].left))
    {
      if n <= 0 {
        return n;
      }
      var b := new bv8[Min(SkipBufSize, n)];
      var m := n;
      while m > 0
        invariant 0 <= m <= n && n - m <= |old(data)| && chunk > 0
        invariant data == old(data)[n - m..] && digested == old(digested) + old(data)[..n - m]
        invariant |requests| >= |old(requests)| && requests[..|old(requests)|] == old(requests)
        invariant forall k :: |old(requests)| <= k < |requests| ==>
          requests[k].left <= |old(data)|
          && 0 < requests[k].len <= Min(SkipBufSize, n - (|old(data)| - requests[k].left))
        decreases m
      {
        ghost var before := requests;
        var len := Read(b, 0, Min(m, b.Length));
        assert requests[..|before|] == before;
        if len == -1 {
          return if m == n then -1 else n - m;
        }
        assert old(data)[..n - m] + old(data)[n - m..][..len] == old(data)[..n - m + len];
        m := m - len;
      }
      return n;
    }
  }
}
