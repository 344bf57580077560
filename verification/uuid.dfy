/** `str(uuid.uuid4())`: 32 lower-case hexadecimal digits in groups of
    8-4-4-4-12 joined by hyphens. The version and variant digits a real
    `uuid4()` fixes are not singled out; any 32 digits are allowed.
 */
module Uuid {
  import opened Wrappers
  import opened Text

  predicate IsHexDigit(c: char) {
    ('0' <= c <= '9') || ('a' <= c <= 'f')
  }

  /** The 32 digits of a uuid. */
  type Uuid4 = h: string | |h| == 32 && forall k :: 0 <= k < |h| ==> IsHexDigit(h[k])
    witness "00000000000000000000000000000000"

  /** `str(u)`: the hyphens sit at positions 8, 13, 18 and 23, and the
      digits read off around them give `u` back. */
  function UuidText(u: Uuid4): (t: string)
    ensures |t| == 36
    ensures t[8] == '-' && t[13] == '-' && t[18] == '-' && t[23] == '-'
    ensures t[..8] + t[9..13] + t[14..18] + t[19..23] + t[24..] == u
    ensures IsHexDigit(t[0]) && IsHexDigit(t[35])
  {
    var t := u[..8] + "-" + u[8..12] + "-" + u[12..16] + "-" + u[16..20] + "-" + u[20..];
    assert t[..8] == u[..8] && t[9..13] == u[8..12] && t[14..18] == u[12..16];
    assert t[19..23] == u[16..20] && t[24..] == u[20..];
    assert u == u[..8] + u[8..12] + u[12..16] + u[16..20] + u[20..];
    t
  }

  /** `int(str(u))` raises `ValueError` for every uuid: the hyphen after
      the first group is neither whitespace nor a digit. */
  lemma UuidIsNotAnInteger(u: Uuid4)
    ensures PythonInt(UuidText(u)) == None
  {
    var t := UuidText(u);
    assert !IsSpace(t[0]) && !IsSpace(t[35]);
    assert Strip(t) == t;
  }
}
