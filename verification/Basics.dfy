/** Result types and text rules shared by every component. */
module Basics {
  datatype Option<+T> = None | Some(value: T)

  datatype Result<+T, +E> = Ok(value: T) | Err(error: E)

  /** Clocks are microseconds since the epoch, the resolution of a Python datetime. */
  type Instant = int

  const SECOND: int := 1_000_000

  /** The white space that Python's str.strip removes. */
  predicate IsSpace(c: char) {
    var n := c as int;
    || 9 <= n <= 13 || 28 <= n <= 32 || n == 0x85 || n == 0xa0 || n == 0x1680
    || 0x2000 <= n <= 0x200a || n == 0x2028 || n == 0x2029 || n == 0x202f || n == 0x205f || n == 0x3000
  }

  /** Number of bytes one character takes in UTF-8 (RFC 3629, section 3). */
  function CharWidth(c: char): nat {
    if c as int < 0x80 then 1 else if c as int < 0x800 then 2 else if c as int < 0x10000 then 3 else 4
  }

  function Utf8Length(s: string): nat {
    if s == "" then 0 else CharWidth(s[0]) + Utf8Length(s[1..])
  }

  /** Non-empty text without surrounding white space. */
  predicate Trimmed(s: string) {
    s != "" && !IsSpace(s[0]) && !IsSpace(s[|s| - 1])
  }

  predicate IsLowerHex(c: char) {
    '0' <= c <= '9' || 'a' <= c <= 'f'
  }

  /** The shape of a lowercase SHA-256 digest. */
  predicate IsDigest(s: string) {
    |s| == 64 && forall i :: 0 <= i < |s| ==> IsLowerHex(s[i])
  }

  lemma SpaceMeans(c: char)
    ensures IsSpace(c) <==>
              c in "\t\n\U{0b}\U{0c}\r\U{1c}\U{1d}\U{1e}\U{1f} \U{85}\U{a0}\U{1680}\U{2028}\U{2029}\U{202f}\U{205f}\U{3000}"
              || c in "\U{2000}\U{2001}\U{2002}\U{2003}\U{2004}\U{2005}\U{2006}\U{2007}\U{2008}\U{2009}\U{200a}"
  {
  }

  lemma DigestMeans(s: string)
    ensures IsDigest(s) <==> |s| == 64 && forall c :: c in s ==> c in "0123456789abcdef"
  {
    forall i | 0 <= i < |s| ensures IsLowerHex(s[i]) <==> s[i] in "0123456789abcdef" {
      HexMeans(s[i]);
    }
  }

  lemma HexMeans(c: char)
    ensures IsLowerHex(c) <==> c in "0123456789abcdef"
  {
    if '0' <= c <= '9' {
      assert "0123456789abcdef"[c as int - '0' as int] == c;
    } else if 'a' <= c <= 'f' {
      assert "0123456789abcdef"[10 + (c as int - 'a' as int)] == c;
    }
  }

  predicate Distinct<T(==)>(s: seq<T>) {
    forall i, j :: 0 <= i < j < |s| ==> s[i] != s[j]
  }

  function MinReal(x: real, y: real): real {
    if x <= y then x else y
  }

  lemma {:induction false} SubsetSize<T>(a: set<T>, b: set<T>)
    requires a <= b
    ensures |a| <= |b|
    decreases |b|
  {
    if b != {} {
      var x :| x in b;
      SubsetSize(a - {x}, b - {x});
    }
  }

  /** Python's s[:n], which never fails. */
  function Prefix(s: string, n: nat): string {
    if |s| <= n then s else s[..n]
  }

  /** A content-addressed identity: a prefix and the first 24 digits of the digest. */
  function IdFrom(prefix: string, digest: string): string {
    prefix + Prefix(digest, 24)
  }

  predicate IdentityShape(prefix: string, id: string, hash: string) {
    && |id| == |prefix| + 24 && prefix <= id
    && (forall i :: |prefix| <= i < |id| ==> IsLowerHex(id[i]))
    && IsDigest(hash)
  }

  lemma IdentityShapeOfDigest(prefix: string, digest: string)
    requires IsDigest(digest)
    ensures IdentityShape(prefix, IdFrom(prefix, digest), digest)
  {
    var id := IdFrom(prefix, digest);
    forall i | |prefix| <= i < |id| ensures IsLowerHex(id[i]) {
      assert id[i] == digest[i - |prefix|];
    }
  }
}
