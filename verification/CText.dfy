/** Text as the firmware holds it: C strings and fixed-size character buffers.
    A buffer is a `seq<char>` (or an `array<char>` while it is being filled); the
    text in it is everything before its first NUL. */
module CText {
  datatype Option<+T> = None | Some(value: T)

  const NUL: char := '\0'

  /** The text of a C string: it cannot hold a NUL. */
  type CString = s: string | NUL !in s

  function Min(a: nat, b: nat): nat {
    if a <= b then a else b
  }

  /** The first n characters, or all of them (what `strncpy`, `strncmp` and
      `snprintf` see of a text through a size limit). */
  function Clip(s: CString, n: nat): (r: CString)
    ensures |r| <= |s| && r == s[..|r|] && |r| == Min(|s|, n)
  {
    s[..Min(|s|, n)]
  }

  /** The position of the first c in s, |s| when there is none (`strchr`, `strcspn`). */
  function IndexOf(s: string, c: char): (i: nat)
    ensures i <= |s| && c !in s[..i] && (i < |s| ==> s[i] == c)
  {
    if s == [] || s[0] == c then 0 else 1 + IndexOf(s[1..], c)
  }

  /** Nothing but the first occurrence fits the contract of IndexOf. */
  lemma IndexOfIs(s: string, c: char, i: nat)
    requires i <= |s| && c !in s[..i] && (i < |s| ==> s[i] == c)
    ensures IndexOf(s, c) == i
  {
  }

  /** The text held in a buffer. */
  function TextOf(buf: string): (t: CString)
    ensures |t| <= |buf| && t == buf[..|t|] && (|t| < |buf| ==> buf[|t|] == NUL)
  {
    buf[..IndexOf(buf, NUL)]
  }

  predicate Terminated(buf: string) {
    NUL in buf
  }

  function Zeros(n: nat): (z: string)
    ensures |z| == n && forall i :: 0 <= i < n ==> z[i] == NUL
  {
    seq(n, _ => NUL)
  }

  /** A buffer of n characters that holds t and is zero after it. */
  function Padded(t: string, n: nat): (b: string)
    requires |t| <= n
    ensures |b| == n && b[..|t|] == t && forall i :: |t| <= i < n ==> b[i] == NUL
  {
    t + Zeros(n - |t|)
  }

  lemma PaddedText(t: CString, n: nat)
    requires |t| < n
    ensures TextOf(Padded(t, n)) == t && Terminated(Padded(t, n))
  {
    var b := Padded(t, n);
    assert b[|t|] == NUL;
    assert b[..|t|] == t;
    IndexOfIs(b, NUL, |t|);
  }

  /** What `strncpy(dst, src, n)` leaves in dst: src cut at n characters, zeros up
      to position n, and the old contents from there on. */
  ghost function StrNCpyResult(before: string, src: CString, n: nat): (after: string)
    requires n <= |before|
    ensures |after| == |before|
    ensures forall i :: 0 <= i < n ==> after[i] == if i < |src| then src[i] else NUL
    ensures forall i :: n <= i < |before| ==> after[i] == before[i]
  {
    Padded(Clip(src, n), n) + before[n..]
  }

  method StrNCpy(dst: array<char>, src: CString, n: nat)
    requires n <= dst.Length
    modifies dst
    ensures dst[..] == StrNCpyResult(old(dst[..]), src, n)
  {
    var i := 0;
    while i < n && i < |src|
      invariant 0 <= i <= n && i <= |src|
      invariant forall k :: 0 <= k < i ==> dst[k] == src[k]
      invariant forall k :: i <= k < dst.Length ==> dst[k] == old(dst[k])
    {
      dst[i] := src[i];
      i := i + 1;
    }
    while i < n
      invariant Min(|src|, n) <= i <= n
      invariant forall k :: 0 <= k < i ==> dst[k] == if k < |src| then src[k] else NUL
      invariant forall k :: n <= k < dst.Length ==> dst[k] == old(dst[k])
    {
      dst[i] := NUL;
      i := i + 1;
    }
  }

  /** Copying a text that leaves room for the terminator into a buffer whose last
      character is already zero gives exactly the padded text, whatever the buffer
      held before: a shorter text leaves no tail of a longer one behind. */
  lemma StrNCpyPads(before: string, src: CString)
    requires 0 < |before| && before[|before| - 1] == NUL && |src| < |before|
    ensures StrNCpyResult(before, src, |before| - 1) == Padded(src, |before|)
  {
  }

  /** `memcpy(dst + at, src, |src|)`. */
  method MemCpy<T>(dst: array<T>, at: nat, src: seq<T>)
    requires at + |src| <= dst.Length
    modifies dst
    ensures dst[..] == old(dst[..at]) + src + old(dst[at + |src|..])
  {
    var i := 0;
    while i < |src|
      invariant 0 <= i <= |src|
      invariant forall k :: 0 <= k < i ==> dst[at + k] == src[k]
      invariant forall k :: 0 <= k < at || at + i <= k < dst.Length ==> dst[k] == old(dst[k])
    {
      dst[at + i] := src[i];
      i := i + 1;
    }
  }
}
