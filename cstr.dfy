/** The C library string routines the parser relies on (strchr, strlen,
    strcpy, strncpy), on char arrays holding NUL-terminated text. Where a
    routine's C prototype has no length, the position of the terminating NUL
    is a ghost parameter: it exists only to state the contract. */
module CStr {
  import opened CmdProcTypes
  import opened CmdProcSpec

  /** buf[from..end] holds the NUL-free text s and buf[end] is its NUL. */
  ghost predicate TextAt(buf: array<char>, from: nat, end: nat, s: string)
    reads buf
  {
    from <= end < buf.Length && buf[from..end] == s && buf[end] == NUL && NUL !in s
  }

  /** buf[from..end] is a NUL-terminated text, whatever it holds. */
  ghost predicate IsText(buf: array<char>, from: nat, end: nat)
    reads buf
  {
    from <= end < buf.Length && TextAt(buf, from, end, buf[from..end])
  }

  /** In such a text the first NUL is at end. */
  lemma NulAtEnd(buf: array<char>, from: nat, end: nat, s: string)
    requires TextAt(buf, from, end, s)
    ensures buf[from] == NUL <==> s == []
  {
    if from < end {
      assert s[0] == buf[from];
    }
  }

  /** strchr(buf + from, c): the index of the first c of the text, or of its
      NUL when c does not occur (where strchr returns NULL). */
  method StrChr(buf: array<char>, from: nat, ghost end: nat, c: char) returns (k: nat)
    requires c != NUL
    requires IsText(buf, from, end)
    ensures k == from + FirstIndex(buf[from..end], c)
    ensures buf[k] == c <==> c in buf[from..end]
  {
    ghost var s := buf[from..end];
    k := from;
    while buf[k] != NUL && buf[k] != c
      invariant from <= k <= end
      invariant c !in buf[from..k]
      decreases end - k
    {
      assert buf[from..k + 1] == buf[from..k] + [buf[k]];
      k := k + 1;
    }
    if k < end {
      assert s[k - from] == buf[k];
    }
    assert s[..k - from] == buf[from..k];
    FirstIndexIs(s, c, k - from);
    FirstIndexFirst(s, c);
  }

  /** strlen(buf + from). */
  method StrLen(buf: array<char>, from: nat, ghost end: nat) returns (n: nat)
    requires IsText(buf, from, end)
    ensures n == end - from
  {
    forall j | from <= j < end ensures buf[j] != NUL {
      assert buf[from..end][j - from] == buf[j];
    }
    n := 0;
    while buf[from + n] != NUL
      invariant from + n <= end
      decreases end - from - n
    {
      n := n + 1;
    }
  }

  /** strcpy(dst, src + from): the text and its NUL are copied to the start
      of dst; the rest of dst is left as it was. */
  method StrCpy(dst: array<char>, src: array<char>, from: nat, ghost end: nat)
    requires IsText(src, from, end)
    requires end - from < dst.Length && dst != src
    modifies dst
    ensures TextAt(dst, 0, end - from, old(src[from..end]))
    ensures dst[end - from + 1..] == old(dst[end - from + 1..])
  {
    forall j | from <= j < end ensures src[j] != NUL {
      assert src[from..end][j - from] == src[j];
    }
    var i := 0;
    while src[from + i] != NUL
      invariant from + i <= end
      invariant dst[..i] == src[from..from + i]
      invariant dst[i..] == old(dst[i..])
      decreases end - from - i
    {
      dst[i] := src[from + i];
      assert dst[..i + 1] == dst[..i] + [dst[i]];
      i := i + 1;
    }
    dst[i] := NUL;
    assert dst[..i] == src[from..end];
  }

  /** strncpy(dst, src + from, ARG_MAX_LEN) for a token of at most
      ARG_MAX_LEN characters: the token is copied, the rest of the first
      ARG_MAX_LEN bytes is zero-filled, and dst[ARG_MAX_LEN] is untouched. */
  method StrNCpyArg(dst: array<char>, src: array<char>, from: nat, ghost end: nat)
    requires dst.Length == ARG_BUF_SIZE && dst != src
    requires IsText(src, from, end) && end - from <= ARG_MAX_LEN
    modifies dst
    ensures dst[..end - from] == src[from..end]
    ensures forall i :: end - from <= i < ARG_MAX_LEN ==> dst[i] == NUL
    ensures dst[ARG_MAX_LEN] == old(dst[ARG_MAX_LEN])
  {
    forall j | from <= j < end ensures src[j] != NUL {
      assert src[from..end][j - from] == src[j];
    }
    var i := 0;
    while i < ARG_MAX_LEN && src[from + i] != NUL
      invariant from + i <= end
      invariant dst[..i] == src[from..from + i]
      invariant dst[ARG_MAX_LEN] == old(dst[ARG_MAX_LEN])
      decreases end - from - i
    {
      dst[i] := src[from + i];
      assert dst[..i + 1] == dst[..i] + [dst[i]];
      i := i + 1;
    }
    while i < ARG_MAX_LEN
      invariant end - from <= i <= ARG_MAX_LEN
      invariant dst[..end - from] == src[from..end]
      invariant forall j :: end - from <= j < i ==> dst[j] == NUL
      invariant dst[ARG_MAX_LEN] == old(dst[ARG_MAX_LEN])
    {
      dst[i] := NUL;
      i := i + 1;
    }
  }
}
