/**
 * The CORS origin policy shared by the Next.js middleware: the allowlist read
 * from the CORS_ORIGINS environment variable, the Vercel preview-domain
 * pattern, and the decision whether a request's Origin is allowed.
 * The environment variable is a parameter (None when it is unset); the
 * allowlist is computed from it once, when the module loads, so the
 * decision takes the parsed allowlist.
 */
module Cors {
  import opened Wrappers
  import opened Text

  const CorsMethods := "GET, POST, PUT, DELETE, OPTIONS"
  const CorsAllowedHeaders := "Content-Type, Authorization"

  /** `.map((s) => s.trim())`. */
  function TrimAll(pieces: seq<string>): (r: seq<string>)
    ensures |r| == |pieces|
    ensures forall i :: 0 <= i < |r| ==> r[i] == Trim(pieces[i])
  {
    if pieces == [] then []
    else
      var rest := TrimAll(pieces[1..]);
      assert forall i :: 1 <= i < |pieces| ==> rest[i - 1] == Trim(pieces[i]);
      [Trim(pieces[0])] + rest
  }

  /** `.filter(Boolean)` on strings: the empty strings dropped. */
  function DropEmpty(pieces: seq<string>): (r: seq<string>)
    ensures |r| <= |pieces|
    ensures forall x :: x in r <==> x in pieces && x != []
  {
    if pieces == [] then []
    else if pieces[0] == [] then DropEmpty(pieces[1..])
    else [pieces[0]] + DropEmpty(pieces[1..])
  }

  /** The allowlist: CORS_ORIGINS split on commas, each piece trimmed, empty pieces dropped. */
  function ParseAllowlist(corsOrigins: Option<string>): (allowlist: seq<string>)
    ensures forall x :: x in allowlist ==> x != [] && Trim(x) == x && ',' !in x
  {
    var pieces := Split(corsOrigins.GetOr(""), ',');
    TrimmedPiecesAreClean(pieces);
    DropEmpty(TrimAll(pieces))
  }

  /** Trimmed comma-free pieces are comma-free and already trimmed. */
  lemma TrimmedPiecesAreClean(pieces: seq<string>)
    requires forall p :: p in pieces ==> ',' !in p
    ensures forall x :: x in TrimAll(pieces) ==> Trim(x) == x && ',' !in x
  {
    var trimmed := TrimAll(pieces);
    forall x | x in trimmed ensures Trim(x) == x && ',' !in x {
      var i :| 0 <= i < |trimmed| && trimmed[i] == x;
      assert pieces[i] in pieces;
      TrimmedPieceIsClean(pieces[i]);
    }
  }

  /** One comma-free piece, trimmed, is comma-free and already trimmed. */
  lemma TrimmedPieceIsClean(p: string)
    requires ',' !in p
    ensures Trim(Trim(p)) == Trim(p) && ',' !in Trim(p)
  {
    TrimIdempotent(p);
    TrimAddsNoChar(p, ',');
  }

  /** An unset CORS_ORIGINS gives the empty allowlist. */
  lemma UnsetAllowlistIsEmpty()
    ensures ParseAllowlist(None) == []
  {
    assert Split("", ',') == [[]];
    assert Trim([]) == [];
    assert TrimAll([[]]) == [[]];
  }

  /** Every piece of CORS_ORIGINS that is not blank after trimming is in the allowlist, trimmed. */
  lemma PieceIsAllowed(corsOrigins: Option<string>, p: string)
    requires p in Split(corsOrigins.GetOr(""), ',') && Trim(p) != []
    ensures Trim(p) in ParseAllowlist(corsOrigins)
  {
    var pieces := Split(corsOrigins.GetOr(""), ',');
    var i :| 0 <= i < |pieces| && pieces[i] == p;
    assert TrimAll(pieces)[i] == Trim(p);
  }

  /** Every allowlist entry is the trimmed form of a piece of CORS_ORIGINS. */
  lemma AllowedIsPiece(corsOrigins: Option<string>, x: string)
    ensures x in ParseAllowlist(corsOrigins) ==> exists p :: p in Split(corsOrigins.GetOr(""), ',') && Trim(p) == x
  {
    var pieces := Split(corsOrigins.GetOr(""), ',');
    var trimmed := TrimAll(pieces);
    if x in ParseAllowlist(corsOrigins) {
      assert x in trimmed;
      var i :| 0 <= i < |trimmed| && trimmed[i] == x;
      assert pieces[i] in pieces && Trim(pieces[i]) == x;
    }
  }

  /** A CORS_ORIGINS value holding one entry, without commas or surrounding blanks, is that entry alone. */
  lemma SingleEntryAllowlist(entry: string)
    requires entry != [] && ',' !in entry
    requires !IsTrimmable(entry[0]) && !IsTrimmable(entry[|entry| - 1])
    ensures ParseAllowlist(Some(entry)) == [entry]
  {
    SplitJoin([entry], ',');
    assert Split(entry, ',') == [entry];
    assert TrimStart(entry) == entry;
    assert TrimEnd(entry) == entry;
    assert TrimAll([entry]) == [entry];
    assert DropEmpty([entry]) == [entry] by {
      assert DropEmpty([entry][1..]) == [];
    }
  }

  const VercelScheme := "https://"
  const VercelSuffix := ".vercel.app"

  /** A member of the class `[-a-z0-9]` under the `i` flag (ASCII letters of either case). */
  predicate IsLabelChar(c: char) {
    c == '-' || ('a' <= c <= 'z') || ('A' <= c <= 'Z') || ('0' <= c <= '9')
  }

  /**
   * The test `/^https:\/\/[-a-z0-9]+\.vercel\.app$/i`: "https://" and
   * ".vercel.app" in any ASCII case around one non-empty run of label
   * characters. The run cannot hold a '.', so the split is unique.
   */
  predicate IsVercel(origin: string) {
    && |origin| > |VercelScheme| + |VercelSuffix|
    && EqualsIgnoreCase(origin[..|VercelScheme|], VercelScheme)
    && EqualsIgnoreCase(origin[|origin| - |VercelSuffix|..], VercelSuffix)
    && forall i :: |VercelScheme| <= i < |origin| - |VercelSuffix| ==> IsLabelChar(origin[i])
  }

  /**
   * Every origin that is, up to ASCII case, https://<host>.vercel.app with a
   * non-empty host of label characters matches.
   */
  lemma VercelAccepts(origin: string, host: string)
    requires host != [] && forall c :: c in host ==> IsLabelChar(c)
    requires EqualsIgnoreCase(origin, VercelScheme + host + VercelSuffix)
    ensures IsVercel(origin)
  {
    var w := VercelScheme + host + VercelSuffix;
    var n := |VercelScheme|;
    var m := |origin| - |VercelSuffix|;
    EqualsIgnoreCaseSlice(origin, w, 0, n);
    EqualsIgnoreCaseSlice(origin, w, m, |origin|);
    assert w[0..n] == VercelScheme && origin[0..n] == origin[..n];
    assert w[m..|w|] == VercelSuffix && origin[m..|origin|] == origin[m..];
    forall i | n <= i < m ensures IsLabelChar(origin[i]) {
      assert w[i] == host[i - n];
      LabelCharIgnoresCase(origin[i], w[i]);
    }
  }

  /** A character that folds to the same letter as a label character is one too. */
  lemma LabelCharIgnoresCase(a: char, b: char)
    requires LowerChar(a) == LowerChar(b) && IsLabelChar(b)
    ensures IsLabelChar(a)
  {
  }

  /**
   * Every matching origin is, up to ASCII case, https://<host>.vercel.app
   * for a non-empty host made of label characters only, so without '.', ':'
   * or '/': no sub-domains, ports or paths.
   */
  lemma VercelShape(origin: string)
    requires IsVercel(origin)
    ensures var host := origin[|VercelScheme|..|origin| - |VercelSuffix|];
      && host != []
      && EqualsIgnoreCase(origin, VercelScheme + host + VercelSuffix)
      && (forall c :: c in host ==> IsLabelChar(c))
      && '.' !in host && ':' !in host && '/' !in host
  {
    var host := origin[|VercelScheme|..|origin| - |VercelSuffix|];
    var w := VercelScheme + host + VercelSuffix;
    assert |w| == |origin|;
    forall i | 0 <= i < |origin| ensures LowerChar(origin[i]) == LowerChar(w[i]) {
      if i < |VercelScheme| {
        assert origin[i] == origin[..|VercelScheme|][i];
      } else if i >= |origin| - |VercelSuffix| {
        assert origin[i] == origin[|origin| - |VercelSuffix|..][i - (|origin| - |VercelSuffix|)];
      }
    }
    forall c | c in host ensures IsLabelChar(c) {
      var j :| 0 <= j < |host| && host[j] == c;
      assert c == origin[|VercelScheme| + j];
    }
  }

  /** The pattern ignores ASCII case: an origin matches exactly when its lower-case form does. */
  lemma VercelIgnoresCase(origin: string)
    ensures IsVercel(origin) <==> IsVercel(Lower(origin))
  {
    var l := Lower(origin);
    var n := |VercelScheme|;
    var m := |origin| - |VercelSuffix|;
    if |origin| > n + |VercelSuffix| {
      assert forall i :: 0 <= i < n ==> l[..n][i] == LowerChar(origin[..n][i]);
      assert forall i :: 0 <= i < |VercelSuffix| ==> l[m..][i] == LowerChar(origin[m..][i]);
      assert forall i :: 0 <= i < |origin| ==> (IsLabelChar(l[i]) <==> IsLabelChar(origin[i]));
    }
  }

  /** A sub-domain of a preview domain is refused: the label run cannot hold a '.'. */
  lemma VercelRefusesSubdomain()
    ensures !IsVercel("https://a.b.vercel.app")
  {
    var o := "https://a.b.vercel.app";
    assert !IsLabelChar(o[9]);
  }

  /** An explicit port is refused: the origin must end in ".vercel.app". */
  lemma VercelRefusesPort()
    ensures !IsVercel("https://app.vercel.app:443")
  {
    var o := "https://app.vercel.app:443";
    assert LowerChar(o[15]) != LowerChar(VercelSuffix[0]);
  }

  /** A path is refused: the origin must end in ".vercel.app". */
  lemma VercelRefusesPath()
    ensures !IsVercel("https://app.vercel.app/")
  {
    var o := "https://app.vercel.app/";
    assert LowerChar(o[12]) != LowerChar(VercelSuffix[0]);
  }

  /** Plain http is refused. */
  lemma VercelRefusesHttp()
    ensures !IsVercel("http://app.vercel.app")
  {
    var o := "http://app.vercel.app";
    assert LowerChar(o[4]) != LowerChar(VercelScheme[4]);
  }

  /** Upper case anywhere is accepted. */
  lemma VercelAcceptsUpperCase()
    ensures IsVercel("HTTPS://Foo.VERCEL.APP")
  {
    var o := "HTTPS://Foo.VERCEL.APP";
    assert o[..8] == "HTTPS://";
    assert o[11..] == ".VERCEL.APP";
  }

  /**
   * `getAllowedOrigin`: the origin itself when it is non-empty and either an
   * allowlist entry (compared exactly, case included) or a Vercel origin;
   * otherwise None (null), also for a missing or empty origin.
   */
  function GetAllowedOrigin(allowlist: seq<string>, origin: Option<string>): (allowed: Option<string>)
    ensures allowed.None? || allowed == origin
    ensures allowed.Some? <==>
      origin.Some? && origin.value != [] && (origin.value in allowlist || IsVercel(origin.value))
  {
    if origin.None? || origin.value == [] then None
    else if origin.value in allowlist || IsVercel(origin.value) then origin
    else None
  }

  /**
   * Allowlist entries are matched exactly: with CORS_ORIGINS holding one entry,
   * the entry itself is returned unchanged and a variant of it that differs
   * only in case (and is not a Vercel origin) is refused.
   */
  lemma AllowlistIsCaseSensitive(entry: string, variant: string)
    requires entry != [] && ',' !in entry
    requires !IsTrimmable(entry[0]) && !IsTrimmable(entry[|entry| - 1])
    requires variant != entry && Lower(variant) == Lower(entry) && !IsVercel(variant)
    ensures GetAllowedOrigin(ParseAllowlist(Some(entry)), Some(entry)) == Some(entry)
    ensures GetAllowedOrigin(ParseAllowlist(Some(entry)), Some(variant)) == None
  {
    SingleEntryAllowlist(entry);
    assert variant != [] by { assert |variant| == |Lower(variant)| == |entry|; }
  }
}
