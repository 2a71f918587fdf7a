/**
 Path normalisation: turning an identifier's path into an on-wire request path,
 and a response's href into the path an item identifier carries.
 */
module Paths {
  import opened Strings

  /** `_strip_absolute_path`: drop every leading slash and nothing else. */
  function StripAbsolutePath(path: string): (r: string)
    ensures NoLeadingSlash(r)
    ensures |r| <= |path| && path == path[..|path| - |r|] + r
    ensures AllSlashes(path[..|path| - |r|])
  {
    var r := LStrip(path);
    assert path == path[..|path| - |r|] + path[|path| - |r|..];
    r
  }

  /** Stripping twice strips nothing more. */
  lemma StripAbsolutePathIdempotent(path: string)
    ensures StripAbsolutePath(StripAbsolutePath(path)) == StripAbsolutePath(path)
  {
    LStripExact([], StripAbsolutePath(path));
  }

  /** The base URL's path with its slashes trimmed, trailing ones first as the source does. */
  function BasePath(apiPath: string): (b: string)
    ensures NoLeadingSlash(b)
    ensures b == Strip(apiPath)
  {
    BasePathIsStrip(apiPath);
    LStrip(RStrip(apiPath))
  }

  /** Trimming the back and then the front is trimming the front and then the back. */
  lemma BasePathIsStrip(apiPath: string)
    ensures LStrip(RStrip(apiPath)) == Strip(apiPath)
  {
    var t := RStrip(apiPath);
    var b := LStrip(t);
    var p := t[..|t| - |b|];
    var q := apiPath[|t|..];
    assert NoTrailingSlash(b) by {
      if b != [] {
        assert b[|b| - 1] == t[|t| - 1];
      }
    }
    PrefixCoreSuffix(apiPath, t, b);
    StripExact(p, b, q);
  }

  /** A prefix `t` of `s` that ends with `b` splits `s` into what precedes `b`, `b` and what follows `t`. */
  lemma PrefixCoreSuffix(s: string, t: string, b: string)
    requires |t| <= |s| && t == s[..|t|]
    requires |b| <= |t| && b == t[|t| - |b|..]
    ensures s == t[..|t| - |b|] + b + s[|t|..]
  {
    assert s == t + s[|t|..];
    assert t == t[..|t| - |b|] + b;
  }

  /** The href path with the base path removed when it is a plain string prefix. */
  function AfterBase(h: string, base: string): string {
    if StartsWith(h, base) then h[|base|..] else h
  }

  /**
   `_href_to_path`, given the decoded path component of the href and the path
   component of the configured base URL.
   */
  function HrefToPath(hrefPath: string, apiPath: string): (r: string)
    ensures r == "/" || Trimmed(r)
    ensures LStrip(hrefPath) == BasePath(apiPath) ==> r == "/"
  {
    RelativePath(hrefPath, BasePath(apiPath))
  }

  /** The body of `_href_to_path` once the base path is normalised; the lemmas below work at this level. */
  function RelativePath(hrefPath: string, base: string): (r: string)
    ensures r == "/" || Trimmed(r)
    ensures LStrip(hrefPath) == base ==> r == "/"
  {
    var rest := AfterBase(LStrip(hrefPath), base);
    assert LStrip(hrefPath) == base ==> rest == [] by {
      if LStrip(hrefPath) == base {
        assert StartsWith(base, base);
      }
    }
    var path := Strip(rest);
    if path == "" then "/" else path
  }

  /** A trimmed path left after removing the base is what the href maps to. */
  lemma RelativePathVia(hrefPath: string, base: string, rest: string, m: string)
    requires AfterBase(LStrip(hrefPath), base) == rest
    requires Strip(rest) == m && Trimmed(m)
    ensures RelativePath(hrefPath, base) == m
  {
  }

  /** Leading slashes before a base that does not start with one are all `lstrip` removes. */
  lemma LStripBeforeBase(p0: string, base: string, tail: string)
    requires AllSlashes(p0) && base != [] && NoLeadingSlash(base)
    ensures LStrip(p0 + base + tail) == base + tail
  {
    assert p0 + base + tail == p0 + (base + tail);
    LStripExact(p0, base + tail);
  }

  /** A string that starts with the base loses exactly the base. */
  lemma AfterBaseOfPrefixed(base: string, tail: string)
    ensures AfterBase(base + tail, base) == tail
  {
    assert (base + tail)[..|base|] == base;
  }

  /** The two groupings of a five-part href path that the proofs below need. */
  lemma Regroup(a: string, b: string, c: string, d: string, e: string)
    ensures a + b + c + d + e == (a + b + c) + (d + e)
    ensures a + b + c + d + e == a + b + (c + d + e)
  {
  }

  lemma RelativePathUnderBase(p0: string, base: string, p: string, m: string, q: string)
    requires NoLeadingSlash(base)
    requires AllSlashes(p0) && AllSlashes(p) && AllSlashes(q) && Trimmed(m)
    ensures RelativePath(p0 + base + p + m + q, base) == m
  {
    var href := p0 + base + p + m + q;
    Regroup(p0, base, p, m, q);
    if base == [] {
      AllSlashesConcat(p0, p);
      assert p0 + base + p == p0 + p;
      LStripExact(p0 + p, m + q);
      AfterBaseOfPrefixed(base, m + q);
      StripCore(m, q);
      RelativePathVia(href, base, m + q, m);
    } else {
      LStripBeforeBase(p0, base, p + m + q);
      AfterBaseOfPrefixed(base, p + m + q);
      StripExact(p, m, q);
      RelativePathVia(href, base, p + m + q, m);
    }
  }

  /**
   When the href path is the base path followed by slashes, a trimmed path and
   more slashes, exactly the base is removed and the trimmed path is returned.
   */
  lemma HrefToPathUnderBase(p0: string, apiPath: string, p: string, m: string, q: string)
    requires AllSlashes(p0) && AllSlashes(p) && AllSlashes(q) && Trimmed(m)
    ensures HrefToPath(p0 + BasePath(apiPath) + p + m + q, apiPath) == m
  {
    RelativePathUnderBase(p0, BasePath(apiPath), p, m, q);
  }

  lemma RelativePathOutsideBase(p: string, base: string, m: string, q: string)
    requires AllSlashes(p) && AllSlashes(q) && Trimmed(m)
    requires !StartsWith(m + q, base)
    ensures RelativePath(p + m + q, base) == m
  {
    LStripBeforeBase(p, m, q);
    StripCore(m, q);
    RelativePathVia(p + m + q, base, m + q, m);
  }

  /** When the href path does not start with the base path, it is only trimmed. */
  lemma HrefToPathOutsideBase(p: string, apiPath: string, m: string, q: string)
    requires AllSlashes(p) && AllSlashes(q) && Trimmed(m)
    requires !StartsWith(m + q, BasePath(apiPath))
    ensures HrefToPath(p + m + q, apiPath) == m
  {
    RelativePathOutsideBase(p, BasePath(apiPath), m, q);
  }

  lemma RelativePathAllSlashes(h: string, base: string)
    requires AllSlashes(h) && base != []
    ensures RelativePath(h, base) == "/"
  {
    assert h == h + [];
    LStripExact(h, []);
  }

  /** Under a non-empty base, an href path of slashes alone maps to the root. */
  lemma HrefToPathAllSlashes(h: string, apiPath: string)
    requires AllSlashes(h) && BasePath(apiPath) != []
    ensures HrefToPath(h, apiPath) == "/"
  {
    RelativePathAllSlashes(h, BasePath(apiPath));
  }

  lemma RelativePathOfBase(p0: string, base: string, q: string)
    requires NoLeadingSlash(base) && AllSlashes(p0) && AllSlashes(q)
    ensures RelativePath(p0 + base + q, base) == "/"
  {
    var href := p0 + base + q;
    if base == [] {
      AllSlashesConcat(p0, q);
      assert href == (p0 + q) + [];
      LStripExact(p0 + q, []);
    } else {
      LStripBeforeBase(p0, base, q);
      AfterBaseOfPrefixed(base, q);
    }
  }

  /** An href path that names the base itself, between any slashes, maps to the root. */
  lemma HrefToPathOfBase(p0: string, apiPath: string, q: string)
    requires AllSlashes(p0) && AllSlashes(q)
    ensures HrefToPath(p0 + BasePath(apiPath) + q, apiPath) == "/"
  {
    RelativePathOfBase(p0, BasePath(apiPath), q);
  }

  lemma RelativePathPlainPrefix(base: string, rest: string)
    requires NoLeadingSlash(base) && Trimmed(rest)
    ensures RelativePath(base + rest, base) == rest
  {
    assert NoLeadingSlash(base + rest) by {
      if base != [] {
        assert (base + rest)[0] == base[0];
      }
    }
    UnslashedFixed(base + rest);
    UnslashedFixed(rest);
    AfterBaseOfPrefixed(base, rest);
    RelativePathVia(base + rest, base, rest, rest);
  }

  /**
   The prefix test is on characters, not path segments: whatever follows the
   base's characters is kept, even when it continues the base's last segment
   (base `dav/u` turns `dav/u2/x` into `2/x`).
   */
  lemma HrefToPathPlainPrefix(apiPath: string, rest: string)
    requires Trimmed(rest)
    ensures HrefToPath(BasePath(apiPath) + rest, apiPath) == rest
  {
    RelativePathPlainPrefix(BasePath(apiPath), rest);
  }
}
