/**
 * The user-agent string a git client announces, and its sanitised form
 * (version.c): white space trimmed from both ends, then every byte that is
 * not printable ASCII overwritten with a dot.
 */
module Version {
  import opened Wrappers
  import opened Strbuf

  /** The byte written over each non-printable byte: ASCII '.'. */
  const Dot: Byte := 46

  /** A byte outside printable ASCII 33..126 (space included). */
  predicate NonPrintable(b: Byte) {
    b <= 32 || b >= 127
  }

  /**
   * The value C sees when it reads the byte `b` through a `char`: on a
   * platform where `char` is signed, bytes 0x80..0xFF read as negative.
   */
  function CharValue(b: Byte, signedChar: bool): int {
    if signedChar && b >= 128 then b - 256 else b
  }

  /** The test of the redaction loop, on the `char` value. */
  predicate RedactGuard(c: int) {
    c <= 32 || c >= 127
  }

  /**
   * Whichever signedness `char` has, the loop's test picks out exactly the
   * non-printable bytes: a high byte either reads as >= 127 or as negative.
   */
  lemma GuardOnEitherSignedness(b: Byte, signedChar: bool)
    ensures RedactGuard(CharValue(b, signedChar)) <==> NonPrintable(b)
  {
  }

  /** One byte after redaction. */
  function Sanitize(b: Byte): Byte {
    if NonPrintable(b) then Dot else b
  }

  /** Every byte sanitised, in place: one output byte per input byte. */
  function SanitizeAll(t: seq<Byte>): (r: seq<Byte>)
  {
    seq(|t|, i requires 0 <= i < |t| => Sanitize(t[i]))
  }

  /**
   * The redaction of `s`: trim white space, then replace each non-printable
   * byte by a dot. One dot per byte: runs are not collapsed, so the length is
   * that of the trimmed input.
   */
  function Redacted(s: seq<Byte>, isSpace: Byte -> bool): (r: seq<Byte>)
    ensures |r| == |Trimmed(s, isSpace)|
    ensures forall i :: 0 <= i < |r| ==> !NonPrintable(r[i])
    ensures forall i :: 0 <= i < |r| && NonPrintable(Trimmed(s, isSpace)[i]) ==> r[i] == Dot
    ensures forall i :: 0 <= i < |r| && !NonPrintable(Trimmed(s, isSpace)[i]) ==> r[i] == Trimmed(s, isSpace)[i]
  {
    SanitizeAll(Trimmed(s, isSpace))
  }

  /** C's `isspace` only ever classifies non-printable bytes as white space. */
  ghost predicate SpacesAreNonPrintable(isSpace: Byte -> bool) {
    forall b: Byte :: isSpace(b) ==> NonPrintable(b)
  }

  /**
   * Leading and trailing white space is removed, not turned into dots:
   * whatever `s` starts or ends with, the redaction starts and ends with the
   * sanitised first and last non-white-space bytes of `s`.
   */
  lemma {:induction false} RedactedDropsOuterSpace(s: seq<Byte>, isSpace: Byte -> bool)
    ensures var k := |TrimEnd(s, isSpace)| - |Redacted(s, isSpace)|;
      && 0 <= k && k + |Redacted(s, isSpace)| <= |s|
      && (forall i :: 0 <= i < k ==> isSpace(s[i]))
      && (forall i :: k + |Redacted(s, isSpace)| <= i < |s| ==> isSpace(s[i]))
      && (forall i :: 0 <= i < |Redacted(s, isSpace)| ==> Redacted(s, isSpace)[i] == Sanitize(s[k + i]))
      && (|Redacted(s, isSpace)| == 0 || (!isSpace(s[k]) && !isSpace(s[k + |Redacted(s, isSpace)| - 1])))
  {
    TrimmedShape(s, isSpace);
    var t := Trimmed(s, isSpace);
    var k := |TrimEnd(s, isSpace)| - |t|;
    forall i | 0 <= i < |t|
      ensures Redacted(s, isSpace)[i] == Sanitize(s[k + i])
    {
      assert t[i] == s[k + i];
    }
  }

  /**
   * Redacting an already redacted string changes nothing: it has no white
   * space left to trim and no byte left to replace.
   */
  lemma RedactedIdempotent(s: seq<Byte>, isSpace: Byte -> bool)
    requires SpacesAreNonPrintable(isSpace)
    ensures Redacted(Redacted(s, isSpace), isSpace) == Redacted(s, isSpace)
  {
  }

  /**
   * `redact_non_printables`: trim the buffer, then overwrite in place every
   * byte whose `char` value is <= 32 or >= 127 with a dot.
   */
  method RedactNonPrintables(sb: StrBuf, isSpace: Byte -> bool, signedChar: bool)
    requires sb.Valid()
    modifies sb, sb.buf
    ensures sb.Valid() && sb.buf == old(sb.buf)
    ensures sb.Contents() == Redacted(old(sb.Contents()), isSpace)
  {
    sb.Trim(isSpace);
    ReplaceNonPrintables(sb, signedChar);
  }

  /** The loop of `redact_non_printables`, over the trimmed buffer. */
  method ReplaceNonPrintables(sb: StrBuf, signedChar: bool)
    requires sb.Valid()
    modifies sb.buf
    ensures sb.Contents() == SanitizeAll(old(sb.Contents()))
  {
    ghost var t := sb.Contents();
    for i := 0 to sb.len
      invariant forall k :: 0 <= k < i ==> sb.buf[k] == Sanitize(t[k])
      invariant forall k :: i <= k < sb.len ==> sb.buf[k] == t[k]
    {
      GuardOnEitherSignedness(sb.buf[i], signedChar);
      if RedactGuard(CharValue(sb.buf[i], signedChar)) {
        sb.buf[i] := Dot;
      }
    }
  }

  /**
   * The two process-wide caches of version.c: the user agent
   * (`git_user_agent`) and its sanitised copy (`git_user_agent_sanitized`),
   * both empty (NULL) until first asked for. The compiled-in default
   * `GIT_USER_AGENT`, C's `isspace` and the signedness of `char` are fixed for
   * the life of the process.
   */
  class UserAgent {
    const builtinAgent: CString
    const isSpace: Byte -> bool
    const signedChar: bool
    var agent: Option<CString>
    var sanitized: Option<CString>

    /** Once computed, the sanitised agent is the redaction of the cached agent. */
    ghost predicate Valid()
      reads this
    {
      sanitized.Some? ==> agent.Some? && sanitized.value == Redacted(agent.value, isSpace)
    }

    constructor (builtinAgent: CString, isSpace: Byte -> bool, signedChar: bool)
      ensures Valid()
      ensures this.builtinAgent == builtinAgent && this.isSpace == isSpace && this.signedChar == signedChar
      ensures agent == None && sanitized == None
    {
      this.builtinAgent := builtinAgent;
      this.isSpace := isSpace;
      this.signedChar := signedChar;
      agent := None;
      sanitized := None;
    }

    /**
     * `git_user_agent`: on the first call, the value of the environment
     * variable GIT_USER_AGENT (`env`, None when unset) or else the built-in
     * default; every later call returns that same value, whatever `env` is.
     */
    method GitUserAgent(env: Option<CString>) returns (r: CString)
      requires Valid()
      modifies this
      ensures Valid()
      ensures old(agent).Some? ==> r == old(agent).value
      ensures old(agent).None? ==> r == (if env.Some? then env.value else builtinAgent)
      ensures agent == Some(r) && sanitized == old(sanitized)
    {
      if agent.None? {
        agent := env;
        if agent.None? {
          agent := Some(builtinAgent);
        }
      }
      r := agent.value;
    }

    /**
     * `git_user_agent_sanitized`: on the first call, copy `git_user_agent()`
     * into a fresh buffer, redact it and keep the result; later calls return
     * the kept value and change nothing.
     */
    method GitUserAgentSanitized(env: Option<CString>) returns (r: CString)
      requires Valid()
      modifies this
      ensures Valid()
      ensures agent.Some? && r == Redacted(agent.value, isSpace) && sanitized == Some(r)
      ensures old(agent).Some? ==> agent == old(agent)
      ensures old(agent).None? ==> agent == Some(if env.Some? then env.value else builtinAgent)
      ensures old(sanitized).Some? ==> r == old(sanitized).value && unchanged(this)
    {
      if sanitized.None? {
        var a := GitUserAgent(env);
        var sb := new StrBuf.FromBytes(a);
        RedactNonPrintables(sb, isSpace, signedChar);
        sanitized := Some(sb.Contents());
      }
      r := sanitized.value;
    }
  }
}
