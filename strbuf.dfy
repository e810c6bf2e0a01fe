/**
 * The growable byte buffer (`struct strbuf`) as far as the user-agent
 * sanitiser uses it: building it from a C string and trimming white space
 * from both ends in place. The classification of a byte as white space
 * (C's `isspace`) is a parameter.
 */
module Strbuf {

  /** One byte of a C string, read as an unsigned value. */
  type Byte = b: int | 0 <= b < 256

  /**
   * A NUL-terminated C string (a command-line argument, an environment
   * value, a compiled-in constant) as its bytes, the NUL left out. A C string
   * never holds a 0 byte before its end; this type does not exclude one, and
   * nothing in the model depends on its absence.
   */
  type CString = seq<Byte>

  /** The bytes left once trailing white space is dropped (`strbuf_rtrim`). */
  function TrimEnd(s: seq<Byte>, isSpace: Byte -> bool): seq<Byte>
    decreases |s|
  {
    if s != [] && isSpace(s[|s| - 1]) then TrimEnd(s[..|s| - 1], isSpace) else s
  }

  /** The bytes left once leading white space is dropped (`strbuf_ltrim`). */
  function TrimStart(s: seq<Byte>, isSpace: Byte -> bool): seq<Byte>
    decreases |s|
  {
    if s != [] && isSpace(s[0]) then TrimStart(s[1..], isSpace) else s
  }

  /** `strbuf_trim`: trailing, then leading white space removed. */
  function Trimmed(s: seq<Byte>, isSpace: Byte -> bool): seq<Byte>
  {
    TrimStart(TrimEnd(s, isSpace), isSpace)
  }

  /**
   * Dropping trailing white space keeps a prefix that is empty or ends in a
   * byte that is not white space; every byte dropped is white space.
   */
  lemma {:induction false} TrimEndShape(s: seq<Byte>, isSpace: Byte -> bool)
    ensures var r := TrimEnd(s, isSpace);
      && |r| <= |s| && r == s[..|r|]
      && (r == [] || !isSpace(r[|r| - 1]))
      && (forall i :: |r| <= i < |s| ==> isSpace(s[i]))
    decreases |s|
  {
    if s != [] && isSpace(s[|s| - 1]) {
      TrimEndShape(s[..|s| - 1], isSpace);
    }
  }

  /**
   * Dropping leading white space keeps a suffix that is empty or starts with
   * a byte that is not white space; every byte dropped is white space.
   */
  lemma {:induction false} TrimStartShape(s: seq<Byte>, isSpace: Byte -> bool)
    ensures var r := TrimStart(s, isSpace);
      && |r| <= |s| && r == s[|s| - |r|..]
      && (r == [] || !isSpace(r[0]))
      && (forall i :: 0 <= i < |s| - |r| ==> isSpace(s[i]))
    decreases |s|
  {
    if s != [] && isSpace(s[0]) {
      TrimStartShape(s[1..], isSpace);
      var r := TrimStart(s, isSpace);
      assert s[1..][|s| - 1 - |r|..] == s[|s| - |r|..];
      forall i | 0 <= i < |s| - |r|
        ensures isSpace(s[i])
      {
        if i > 0 {
          assert s[i] == s[1..][i - 1];
        }
      }
    }
  }

  /**
   * Trimming keeps one contiguous stretch `s[k..k + |r|]` of the input: all
   * bytes before and after it are white space, and it neither starts nor
   * ends with white space.
   */
  lemma TrimmedShape(s: seq<Byte>, isSpace: Byte -> bool)
    ensures var r := Trimmed(s, isSpace);
      var k := |TrimEnd(s, isSpace)| - |r|;
      && 0 <= k && k + |r| <= |s|
      && r == s[k..k + |r|]
      && (forall i :: 0 <= i < k ==> isSpace(s[i]))
      && (forall i :: k + |r| <= i < |s| ==> isSpace(s[i]))
      && (r == [] || (!isSpace(r[0]) && !isSpace(r[|r| - 1])))
  {
    var e := TrimEnd(s, isSpace);
    var r := Trimmed(s, isSpace);
    TrimEndShape(s, isSpace);
    TrimStartShape(e, isSpace);
    var k := |e| - |r|;
    assert r == e[k..];
    assert r == s[k..k + |r|];
    forall i | 0 <= i < k
      ensures isSpace(s[i])
    {
      assert s[i] == e[i];
    }
    if r != [] {
      assert r[|r| - 1] == e[|e| - 1];
    }
  }

  /**
   * A `struct strbuf`: `len` bytes in use at the front of the allocated
   * array `buf`. The terminating NUL that C keeps after them is not modelled.
   */
  class StrBuf {
    var buf: array<Byte>
    var len: nat

    ghost predicate Valid()
      reads this
    {
      len <= buf.Length
    }

    /** The bytes the buffer holds. */
    function Contents(): seq<Byte>
      reads this, buf
      requires Valid()
    {
      buf[..len]
    }

    /** `STRBUF_INIT` followed by `strbuf_addstr(&sb, s)`. */
    constructor FromBytes(s: seq<Byte>)
      ensures Valid() && fresh(buf)
      ensures Contents() == s
    {
      buf := new Byte[|s|](i requires 0 <= i < |s| => s[i]);
      len := |s|;
    }

    /** `strbuf_rtrim`: shorten `len` while the last byte is white space. */
    method RTrim(isSpace: Byte -> bool)
      requires Valid()
      modifies this
      ensures Valid() && buf == old(buf)
      ensures Contents() == TrimEnd(old(Contents()), isSpace)
    {
      while len > 0 && isSpace(buf[len - 1])
        invariant Valid() && buf == old(buf)
        invariant TrimEnd(buf[..len], isSpace) == TrimEnd(old(Contents()), isSpace)
      {
        assert buf[..len][..len - 1] == buf[..len - 1];
        len := len - 1;
      }
    }

    /**
     * `strbuf_ltrim`: count the leading white space, then move the rest down
     * to the start of the array.
     */
    method LTrim(isSpace: Byte -> bool)
      requires Valid()
      modifies this, buf
      ensures Valid() && buf == old(buf)
      ensures Contents() == TrimStart(old(Contents()), isSpace)
    {
      ghost var s := Contents();
      var b := 0;
      while b < len && isSpace(buf[b])
        invariant buf == old(buf) && len == |s| && buf[..len] == s && b <= len
        invariant TrimStart(s[b..], isSpace) == TrimStart(s, isSpace)
      {
        assert s[b..][1..] == s[b + 1..];
        b := b + 1;
      }
      assert s[b..] == TrimStart(s, isSpace);
      MoveDown(b);
    }

    /** The `memmove` of `strbuf_ltrim`: drop the first `b` bytes, copying front to back. */
    method MoveDown(b: nat)
      requires Valid() && b <= len
      modifies this, buf
      ensures Valid() && buf == old(buf)
      ensures Contents() == old(Contents())[b..]
    {
      ghost var orig := buf[..];
      var n := len - b;
      var j := 0;
      while j < n
        invariant buf == old(buf) && 0 <= j <= n && b + n == len <= buf.Length == |orig|
        invariant forall k :: 0 <= k < j ==> buf[k] == orig[k + b]
        invariant forall k :: j <= k < buf.Length ==> buf[k] == orig[k]
      {
        buf[j] := buf[j + b];
        j := j + 1;
      }
      len := n;
    }

    /** `strbuf_trim`: `strbuf_rtrim` then `strbuf_ltrim`. */
    method Trim(isSpace: Byte -> bool)
      requires Valid()
      modifies this, buf
      ensures Valid() && buf == old(buf)
      ensures Contents() == Trimmed(old(Contents()), isSpace)
    {
      RTrim(isSpace);
      LTrim(isSpace);
    }
  }
}
