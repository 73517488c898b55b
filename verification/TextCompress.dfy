/** The encoder of compressed text: the compression loop of mdb_ascii2unicode (libmdb/iconv.c). */
module TextCompress {
  import opened Bytes
  import opened Utf
  import opened TextCodec
  import opened MemoChunks

  /** Two-byte units written with as few mode bytes as the decoder's modes allow. */
  function Pack(src: seq<byte>, comp: bool): seq<byte> {
    if |src| < 2 then []
    else
      var plain := src[1] == 0;
      (if plain == comp then [] else [0]) + (if plain then [src[0]] else [src[0], src[1]]) + Pack(src[2..], plain)
  }

  /** A low byte of zero would read as a mode switch. */
  predicate Packable(src: seq<byte>) { forall k :: 0 <= k < |src| && k % 2 == 0 ==> src[k] != 0 }

  /** When the compressed form is used at all. */
  predicate Shrinks(src: seq<byte>) { |src| > 4 && Packable(src) && 2 + |Pack(src, true)| < |src| }

  lemma PackOnce(src: seq<byte>, comp: bool)
    requires |src| >= 2
    ensures src[1] == 0 ==> Pack(src, comp) == (if comp then [] else [0]) + ([src[0]] + Pack(src[2..], true))
    ensures src[1] != 0 ==> Pack(src, comp) == (if comp then [0] else []) + ([src[0], src[1]] + Pack(src[2..], false))
  {
    var plain := src[1] == 0;
    Associative(if plain == comp then [] else [0], if plain then [src[0]] else [src[0], src[1]], Pack(src[2..], plain));
  }

  lemma Associative(a: seq<byte>, b: seq<byte>, c: seq<byte>)
    ensures a + b + c == a + (b + c)
  {
  }

  lemma DecompressOnce(lo: byte, hi: byte, rest: seq<byte>)
    requires lo != 0
    ensures Decompress([lo] + rest, true) == [lo, 0] + Decompress(rest, true)
    ensures Decompress([lo, hi] + rest, false) == [lo, hi] + Decompress(rest, false)
  {
    assert ([lo] + rest)[1..] == rest && ([lo, hi] + rest)[2..] == rest;
  }

  lemma DecompressSwitch(rest: seq<byte>, comp: bool)
    ensures Decompress([0] + rest, comp) == Decompress(rest, !comp)
  {
    assert ([0] + rest)[1..] == rest;
  }

  lemma {:induction false} PackThenDecompress(src: seq<byte>, comp: bool)
    requires Packable(src) && |src| % 2 == 0
    ensures Decompress(Pack(src, comp), comp) == src
  {
    if src != [] {
      hide Pack, Decompress;
      var plain := src[1] == 0;
      var rest := Pack(src[2..], plain);
      var body := (if plain then [src[0]] else [src[0], src[1]]) + rest;
      forall k | 0 <= k < |src[2..]| && k % 2 == 0 ensures src[2..][k] != 0 { assert (k + 2) % 2 == 0; }
      PackThenDecompress(src[2..], plain);
      PackOnce(src, comp);
      DecompressOnce(src[0], src[1], rest);
      DecompressSwitch(body, comp);
      assert src == [src[0], src[1]] + src[2..];
      assert [] + body == body;
    }
  }

  lemma PackStep(src: seq<byte>, i: nat, n: nat, comp: bool)
    requires i + 1 < n <= |src|
    ensures (src[i + 1] == 0) != comp ==> Pack(src[i..n], comp) == [0] + Pack(src[i..n], !comp)
    ensures (src[i + 1] == 0) && comp ==> Pack(src[i..n], comp) == [src[i]] + Pack(src[i + 2..n], comp)
    ensures (src[i + 1] != 0) && !comp ==> Pack(src[i..n], comp) == [src[i], src[i + 1]] + Pack(src[i + 2..n], comp)
  {
    hide Pack;
    var s := src[i..n];
    assert s[0] == src[i] && s[1] == src[i + 1] && s[2..] == src[i + 2..n];
    PackOnce(s, comp);
    PackOnce(s, !comp);
  }

  /** Written so far and still to be written. */
  predicate Writing(done: seq<byte>, src: seq<byte>, i: nat, comp: bool)
    requires i <= |src|
  {
    && done + Pack(src[i..], comp) == [0xFF, 0xFE] + Pack(src, true)
    && forall k :: 0 <= k < i && k % 2 == 0 ==> src[k] != 0
  }

  lemma WritingStart(src: seq<byte>)
    ensures Writing([0xFF, 0xFE], src, 0, true)
  {
    assert src[0..] == src;
  }

  lemma WritingStep(done: seq<byte>, src: seq<byte>, i: nat, comp: bool)
    requires i + 1 < |src| && Writing(done, src, i, comp)
    ensures (src[i + 1] == 0) != comp ==> Writing(done + [0], src, i, !comp)
    ensures src[i + 1] == 0 && comp && src[i] != 0 && i % 2 == 0 ==> Writing(done + [src[i]], src, i + 2, comp)
    ensures src[i + 1] != 0 && !comp && src[i] != 0 && i % 2 == 0 ==>
      Writing(done + [src[i], src[i + 1]], src, i + 2, comp)
    ensures src[i + 1] != 0 && !comp && src[i] != 0 && |done| + 2 > |src| - 1 ==> !Shrinks(src)
    ensures src[i] == 0 && i % 2 == 0 ==> !Shrinks(src)
  {
    hide Pack;
    PackStep(src, i, |src|, comp);
    assert src[i..|src|] == src[i..] && src[i + 2..|src|] == src[i + 2..];
  }

  lemma WritingEnd(done: seq<byte>, src: seq<byte>, i: nat, comp: bool)
    requires i <= |src| && Writing(done, src, i, comp)
    ensures |done| >= |src| ==> !Shrinks(src)
    ensures i == |src| > 4 && |done| < |src| ==> Shrinks(src) && done == [0xFF, 0xFE] + Pack(src, true)
  {
    hide Pack;
    PackNone(src[i..], comp);
  }

  /** The loop over the units: `tptr` reaches the end of `tmp` exactly when the text does not get shorter. */
  method PackLoop(dest: array<byte>, tmp: array<byte>, ghost src: seq<byte>) returns (tptr: nat)
    requires dest != tmp && tmp.Length <= dest.Length && tmp.Length % 2 == 0 && tmp.Length > 4
    requires src == dest[..tmp.Length]
    modifies tmp
    ensures tptr <= tmp.Length && (tptr < tmp.Length <==> Shrinks(src))
    ensures tptr < tmp.Length ==> tmp[..tptr] == [0xFF, 0xFE] + Pack(src, true)
  {
    hide Pack, Shrinks, Writing;
    var dlen := tmp.Length;
    var dptr, comp := 0, true;
    tmp[0], tmp[1] := 0xFF, 0xFE;
    tptr := 2;
    assert tmp[..2] == [0xFF, 0xFE];
    WritingStart(src);
    while dptr < dlen && tptr < dlen
      invariant 0 <= tptr <= dlen && 0 <= dptr <= dlen && dptr % 2 == 0
      invariant (tptr == dlen && !Shrinks(src)) || Writing(tmp[..tptr], src, dptr, comp)
      decreases dlen - dptr, dlen - tptr
    {
      ghost var done := tmp[..tptr];
      WritingStep(done, src, dptr, comp);
      if (dest[dptr + 1] == 0 && !comp) || (dest[dptr + 1] != 0 && comp) {
        tmp[tptr] := 0;
        tptr := tptr + 1;
        comp := !comp;
        assert tmp[..tptr] == done + [0];
      } else if dest[dptr] == 0 {
        tptr := dlen;
      } else if comp {
        tmp[tptr] := dest[dptr];
        tptr := tptr + 1;
        assert tmp[..tptr] == done + [src[dptr]];
        dptr := dptr + 2;
      } else if tptr + 1 < dlen {
        tmp[tptr] := dest[dptr];
        tptr := tptr + 1;
        tmp[tptr] := dest[dptr + 1];
        tptr := tptr + 1;
        assert tmp[..tptr] == done + [src[dptr], src[dptr + 1]];
        dptr := dptr + 2;
      } else {
        tptr := dlen;
      }
    }
    if Writing(tmp[..tptr], src, dptr, comp) {
      WritingEnd(tmp[..tptr], src, dptr, comp);
    }
  }

  /** Compresses `dest[..dlen]` in place if that makes it shorter; `dlen` is a whole number of units. */
  method Compress(dest: array<byte>, dlen: nat) returns (n: nat)
    requires dlen <= dest.Length && dlen % 2 == 0
    modifies dest
    ensures n < dlen <==> Shrinks(old(dest[..dlen]))
    ensures n < dlen ==> dest[..n] == [0xFF, 0xFE] + Pack(old(dest[..dlen]), true) && dest[n..] == old(dest[n..])
    ensures n >= dlen ==> n == dlen && dest[..] == old(dest[..])
  {
    hide Pack, Packable;
    n := dlen;
    if dlen > 4 {
      var tmp := new byte[dlen];
      var tptr := PackLoop(dest, tmp, dest[..dlen]);
      if tptr < dlen {
        forall k | 0 <= k < tptr {
          dest[k] := tmp[k];
        }
        assert dest[..tptr] == tmp[..tptr];
        n := tptr;
      }
    }
  }

  lemma PackNone(src: seq<byte>, comp: bool)
    ensures src == [] ==> Pack(src, comp) == []
  {
  }

  /** `decompress_unicode`: the same decoder with room for `dlen` bytes, filled two at a time. */
  method DecompressBounded(src: seq<byte>, dlen: nat) returns (dst: seq<byte>)
    ensures dst <= Decompress(src, true) && (|dst| >= dlen || dst == Decompress(src, true))
    ensures |dst| <= dlen + dlen % 2
  {
    var s, compress := src, true;
    dst := [];
    ghost var goal := Decompress(src, true);
    while |s| > 0 && |dst| < dlen
      invariant dst + Decompress(s, compress) == goal && |dst| % 2 == 0 && |dst| <= dlen + dlen % 2
      decreases |s|
    {
      if s[0] == 0 {
        compress := !compress;
        s := s[1..];
      } else if compress {
        dst := dst + [s[0], 0];
        s := s[1..];
      } else if |s| >= 2 {
        dst := dst + [s[0], s[1]];
        s := s[2..];
      } else {
        break;
      }
    }
  }

  /** What the encoder shortens, both decoders give back. */
  lemma CompressedReadsBack(src: seq<byte>)
    requires |src| % 2 == 0 && Shrinks(src)
    ensures Decompress(([0xFF, 0xFE] + Pack(src, true))[2..], true) == src
    ensures Meaning([0xFF, 0xFE] + Pack(src, true), true) == Text(UnitsLE(src))
  {
    assert ([0xFF, 0xFE] + Pack(src, true))[2..] == Pack(src, true);
    PackThenDecompress(src, true);
  }
}
