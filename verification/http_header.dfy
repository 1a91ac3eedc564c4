/**
 * The part of `net/http`'s header map the access log relies on: keys are
 * stored in canonical form (`textproto.CanonicalMIMEHeaderKey`), `Set`
 * replaces the values of a key, `Get` returns the first value or "".
 */
module HttpHeader {
  import opened Text

  /** A header: canonical key to its values. */
  type Header = map<string, seq<string>>

  /** A character allowed in a header field name (an RFC 7230 token character). */
  predicate IsTokenChar(c: char) {
    || 'a' <= c <= 'z' || 'A' <= c <= 'Z' || '0' <= c <= '9'
    || c in "!#$%&'*+-.^_`|~"
  }

  predicate IsToken(s: string) {
    forall i :: 0 <= i < |s| ==> IsTokenChar(s[i])
  }

  /** Upper-case the first letter and every letter after a `-`, lower-case the others. */
  function Canon(s: string, upper: bool): (r: string)
    ensures |r| == |s|
    decreases |s|
  {
    if s == [] then []
    else [if upper then UpperChar(s[0]) else LowerChar(s[0])] + Canon(s[1..], s[0] == '-')
  }

  /** `CanonicalMIMEHeaderKey`: a key with a character outside the token set is left as it is. */
  function CanonicalKey(key: string): (k: string)
    ensures |k| == |key|
  {
    if IsToken(key) then Canon(key, true) else key
  }

  /** `Header.Get`: the first value stored under the canonical key, or "". */
  function Get(h: Header, key: string): string {
    var k := CanonicalKey(key);
    if k in h && h[k] != [] then h[k][0] else ""
  }

  /** `Header.Set`: the values under the canonical key become the single `value`. */
  function Set(h: Header, key: string, value: string): (r: Header)
    ensures r.Keys == h.Keys + {CanonicalKey(key)}
  {
    h[CanonicalKey(key) := [value]]
  }

  lemma GetAfterSet(h: Header, key: string, value: string)
    ensures Get(Set(h, key, value), key) == value
  {
  }

  /** Setting one key leaves every key with another canonical form as it was. */
  lemma GetOtherAfterSet(h: Header, key: string, value: string, other: string)
    requires CanonicalKey(other) != CanonicalKey(key)
    ensures Get(Set(h, key, value), other) == Get(h, other)
  {
  }

  lemma {:induction false} CanonKeepsToken(s: string, upper: bool)
    requires IsToken(s)
    ensures IsToken(Canon(s, upper))
    decreases |s|
  {
    if s != [] {
      CanonKeepsToken(s[1..], s[0] == '-');
      var c := s[0];
      var d := if upper then UpperChar(c) else LowerChar(c);
      assert IsTokenChar(c);
      assert IsTokenChar(d);
      var r := Canon(s, upper);
      forall i | 0 <= i < |r| ensures IsTokenChar(r[i]) {
        if i > 0 {
          assert r[i] == Canon(s[1..], c == '-')[i - 1];
        }
      }
    }
  }

  lemma {:induction false} CanonIdempotent(s: string, upper: bool)
    ensures Canon(Canon(s, upper), upper) == Canon(s, upper)
    decreases |s|
  {
    if s != [] {
      var r := Canon(s, upper);
      assert r[0] == '-' <==> s[0] == '-';
      assert r[1..] == Canon(s[1..], s[0] == '-');
      CanonIdempotent(s[1..], s[0] == '-');
    }
  }

  /** A canonical key is its own canonical form. */
  lemma CanonicalKeyIdempotent(key: string)
    ensures CanonicalKey(CanonicalKey(key)) == CanonicalKey(key)
  {
    if IsToken(key) {
      CanonKeepsToken(key, true);
      CanonIdempotent(key, true);
    }
  }

  lemma {:induction false} CanonIgnoresCase(a: string, b: string, upper: bool)
    requires Lower(a) == Lower(b)
    ensures Canon(a, upper) == Canon(b, upper)
    decreases |a|
  {
    if a != [] {
      assert LowerChar(a[0]) == LowerChar(b[0]);
      assert Lower(a[1..]) == Lower(b[1..]) by {
        assert Lower(a)[1..] == Lower(a[1..]) && Lower(b)[1..] == Lower(b[1..]);
      }
      CanonIgnoresCase(a[1..], b[1..], a[0] == '-');
    }
  }

  lemma LowerKeepsToken(a: string, b: string)
    requires Lower(a) == Lower(b) && IsToken(a)
    ensures IsToken(b)
  {
    forall i | 0 <= i < |b| ensures IsTokenChar(b[i]) {
      assert LowerChar(a[i]) == LowerChar(b[i]) && IsTokenChar(a[i]);
    }
  }

  /** Valid header names that differ only in letter case reach the same values. */
  lemma GetIgnoresCase(h: Header, a: string, b: string)
    requires IsToken(a) && Lower(a) == Lower(b)
    ensures Get(h, a) == Get(h, b)
  {
    LowerKeepsToken(a, b);
    CanonIgnoresCase(a, b, true);
  }
}
