/** The growing output buffer of the PHP run-time library. */
module TemplateBuffers {

  const CHUNK_SIZE: nat := 256
  const INITIAL_SIZE: nat := 200

  function Max(a: nat, b: nat): nat {
    if a < b then b else a
  }

  function Concatenated(pieces: seq<string>): string {
    if pieces == [] then "" else Concatenated(pieces[..|pieces| - 1]) + pieces[|pieces| - 1]
  }

  function Longest(pieces: seq<string>): nat {
    if pieces == [] then 0 else Max(Longest(pieces[..|pieces| - 1]), |pieces[|pieces| - 1]|)
  }

  class TemplateBuffer {
    var ptr: array<char>
    var strLength: nat
    var allocatedLength: nat

    /** There is always room for the terminator, and never more room left than a chunk or
        the longest piece needs. */
    ghost predicate Valid(pieces: seq<string>)
      reads this, ptr
    {
      && ptr.Length == allocatedLength
      && strLength < allocatedLength
      && allocatedLength - strLength <= Max(CHUNK_SIZE, Longest(pieces) + 1)
      && ptr[..strLength] == Concatenated(pieces)
      && (pieces != [] ==> ptr[strLength] == '\0')
    }

    constructor ()
      ensures Valid([]) && fresh(ptr) && allocatedLength == INITIAL_SIZE
    {
      ptr := new char[INITIAL_SIZE];
      strLength := 0;
      allocatedLength := INITIAL_SIZE;
    }

    /** Reallocates when n more characters do not fit, by a chunk or by what they need. */
    method Reserve(n: nat)
      requires ptr.Length == allocatedLength && strLength < allocatedLength
      modifies this`ptr, this`allocatedLength
      ensures ptr == old(ptr) || fresh(ptr)
      ensures ptr.Length == allocatedLength && strLength + n <= allocatedLength
      ensures allocatedLength == old(allocatedLength) || allocatedLength - strLength - n < Max(CHUNK_SIZE, n)
      ensures ptr[..strLength] == old(ptr[..strLength])
    {
      if strLength + n > allocatedLength {
        var newLength := allocatedLength + if n > CHUNK_SIZE then n else CHUNK_SIZE;
        var newPtr := new char[newLength];
        forall i | 0 <= i < allocatedLength {
          newPtr[i] := ptr[i];
        }
        ptr := newPtr;
        allocatedLength := newLength;
      }
    }

    /** `add_to_buffer`: make room for the piece and the terminator, then copy the piece and
        terminate. */
    method Add(str: string, ghost pieces: seq<string>)
      requires Valid(pieces)
      modifies this, ptr
      ensures Valid(pieces + [str])
      ensures ptr == old(ptr) || fresh(ptr)
      ensures ptr[..strLength] == old(ptr[..strLength]) + str
    {
      assert (pieces + [str])[..|pieces|] == pieces;
      ghost var text := ptr[..strLength];
      Reserve(|str| + 1);
      forall i | 0 <= i < |str| {
        ptr[strLength + i] := str[i];
      }
      strLength := strLength + |str|;
      ptr[strLength] := '\0';
      assert ptr[..strLength] == text + str;
    }
  }

  /** Appending any sequence of pieces to a new buffer leaves their concatenation in it,
      terminated and within bounds. */
  method AddAll(pieces: seq<string>) returns (buffer: TemplateBuffer)
    ensures fresh(buffer) && buffer.Valid(pieces)
    ensures buffer.ptr[..buffer.strLength] == Concatenated(pieces)
  {
    buffer := new TemplateBuffer();
    for i := 0 to |pieces|
      invariant fresh(buffer) && fresh(buffer.ptr) && buffer.Valid(pieces[..i])
    {
      buffer.Add(pieces[i], pieces[..i]);
      assert pieces[..i + 1] == pieces[..i] + [pieces[i]];
    }
    assert pieces[..|pieces|] == pieces;
  }
}
