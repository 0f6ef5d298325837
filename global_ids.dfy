/**
 * Persistent identifiers of the form `protocol:authority/identifier` and the parser that
 * turns caller text into one (AbstractGlobalIdServiceBean.parsePersistentId).
 */
module GlobalIds {
  import opened Nullable
  import opened JavaStrings

  /** The schemes the parser accepts (GlobalId.DOI_PROTOCOL, HDL_PROTOCOL, PERMA_PROTOCOL). */
  const DoiProtocol: string := "doi"
  const HdlProtocol: string := "hdl"
  const PermaProtocol: string := "perma"

  /**
   * A global id. Protocol and authority are nullable: the generators build candidates from
   * an object whose protocol and authority may not be set yet.
   */
  datatype GlobalId = GlobalId(protocol: Option<string>, authority: Option<string>, identifier: string)

  /**
   * The static helpers of GlobalIdServiceBean the parser calls, whose bodies are not part of
   * this model: formatIdentifierString (cleans a component), testforNullTerminator and
   * checkDOIAuthority.
   */
  datatype IdHelpers = IdHelpers(
    format: string -> string,
    hasNullTerminator: string -> bool,
    checkDoiAuthority: string -> bool)

  predicate IsSupportedProtocol(protocol: string)
  {
    protocol == DoiProtocol || protocol == HdlProtocol || protocol == PermaProtocol
  }

  /** The wire form `protocol:authority/identifier`. */
  function AsText(protocol: string, authority: string, identifier: string): string
  {
    protocol + ":" + authority + "/" + identifier
  }

  /**
   * The checks parsePersistentId applies once the text is cut into its three raw parts:
   * supported protocol, cleaned authority free of NUL and (for DOI) a valid DOI prefix,
   * cleaned identifier free of NUL.
   */
  function CheckParts(h: IdHelpers, protocol: string, rawAuthority: string, rawIdentifier: string): (r: Option<GlobalId>)
    ensures r.Some? <==>
              && IsSupportedProtocol(protocol)
              && !h.hasNullTerminator(h.format(rawAuthority))
              && (protocol == DoiProtocol ==> h.checkDoiAuthority(h.format(rawAuthority)))
              && !h.hasNullTerminator(h.format(rawIdentifier))
    ensures r.Some? ==> r.value == GlobalId(Some(protocol), Some(h.format(rawAuthority)), h.format(rawIdentifier))
  {
    if !IsSupportedProtocol(protocol) then None
    else
      var authority := h.format(rawAuthority);
      if h.hasNullTerminator(authority) then None
      else if protocol == DoiProtocol && !h.checkDoiAuthority(authority) then None
      else
        var identifier := h.format(rawIdentifier);
        if h.hasNullTerminator(identifier) then None
        else Some(GlobalId(Some(protocol), Some(authority), identifier))
  }

  /**
   * parsePersistentId: splits at the first ':' and at the first '/' after it, and returns
   * null (None) for null text, for no ':' or a ':' at index 0, for no '/' after the ':' and
   * for a '/' that is the last character; otherwise the parts go through CheckParts.
   */
  function ParsePersistentId(h: IdHelpers, text: Option<string>): Option<GlobalId>
  {
    match text
    case None => None
    case Some(s) =>
      var index1 := IndexOf(s, ':', 0);
      if index1 > 0 then
        var index2 := IndexOf(s, '/', index1 + 1);
        if index2 > 0 && index2 + 1 < |s| then
          CheckParts(h, s[..index1], s[index1 + 1..index2], s[index2 + 1..])
        else
          None
      else
        None
  }

  /** `i` is the first index at or after `from` where `c` stands in `s`. */
  predicate FirstAt(s: string, c: char, from: nat, i: nat)
  {
    from <= i < |s| && s[i] == c && forall k :: from <= k < i ==> s[k] != c
  }

  /** Every way parsePersistentId returns null on malformed text. */
  lemma ParseRejectsMalformed(h: IdHelpers, s: string)
    ensures ParsePersistentId(h, None) == None
    ensures (forall k :: 0 <= k < |s| ==> s[k] != ':') ==> ParsePersistentId(h, Some(s)) == None
    ensures |s| > 0 && s[0] == ':' ==> ParsePersistentId(h, Some(s)) == None
    ensures forall i1: nat :: FirstAt(s, ':', 0, i1) && (forall k :: i1 < k < |s| ==> s[k] != '/')
              ==> ParsePersistentId(h, Some(s)) == None
    ensures forall i1: nat :: FirstAt(s, ':', 0, i1) && 0 < |s| && FirstAt(s, '/', i1 + 1, |s| - 1)
              ==> ParsePersistentId(h, Some(s)) == None
  {
  }

  /** IndexOf finds exactly the first occurrence. */
  lemma FirstIsIndexOf(s: string, c: char, from: nat, i: nat)
    requires FirstAt(s, c, from, i)
    ensures IndexOf(s, c, from) == i
  {
  }

  /**
   * Parts whose text form the parser cuts back apart: a non-empty protocol without ':', an
   * authority without '/' (possibly empty) and a non-empty identifier (which may contain '/').
   */
  predicate CleanParts(protocol: string, authority: string, identifier: string)
  {
    && protocol != []
    && (forall k :: 0 <= k < |protocol| ==> protocol[k] != ':')
    && (forall k :: 0 <= k < |authority| ==> authority[k] != '/')
    && identifier != []
  }

  /**
   * Text put together from a protocol without ':', an authority without '/' (possibly empty)
   * and a non-empty identifier (which may itself contain '/') is cut back into exactly those
   * parts: whether it parses is decided by CheckParts alone.
   */
  lemma {:induction false} ParseSplitsComposedText(h: IdHelpers, protocol: string, authority: string, identifier: string)
    requires CleanParts(protocol, authority, identifier)
    ensures ParsePersistentId(h, Some(AsText(protocol, authority, identifier)))
            == CheckParts(h, protocol, authority, identifier)
  {
    var s := AsText(protocol, authority, identifier);
    var i1 := |protocol|;
    var i2 := |protocol| + 1 + |authority|;
    assert s[..i1] == protocol;
    assert s[i1 + 1..i2] == authority;
    assert s[i2 + 1..] == identifier;
    assert FirstAt(s, ':', 0, i1) by {
      forall k | 0 <= k < i1 ensures s[k] != ':' {
        assert s[k] == protocol[k];
      }
    }
    assert FirstAt(s, '/', i1 + 1, i2) by {
      forall k | i1 + 1 <= k < i2 ensures s[k] != '/' {
        assert s[k] == authority[k - i1 - 1];
      }
    }
    FirstIsIndexOf(s, ':', 0, i1);
    FirstIsIndexOf(s, '/', i1 + 1, i2);
  }

  /**
   * Conversely, whatever parses is such composed text: the protocol is everything before the
   * first ':', the authority everything between it and the next '/', and the identifier all
   * the rest, later '/' included.
   */
  lemma ParseSuccessIsComposedText(h: IdHelpers, s: string, g: GlobalId)
    requires ParsePersistentId(h, Some(s)) == Some(g)
    ensures exists protocol, authority, identifier ::
              && s == AsText(protocol, authority, identifier)
              && CleanParts(protocol, authority, identifier)
              && CheckParts(h, protocol, authority, identifier) == Some(g)
  {
    var i1 := IndexOf(s, ':', 0);
    var i2 := IndexOf(s, '/', i1 + 1);
    assert 0 < i1 < i2 < |s| - 1;
    var protocol, authority, identifier := s[..i1], s[i1 + 1..i2], s[i2 + 1..];
    assert CheckParts(h, protocol, authority, identifier) == Some(g);
    TextAroundSeparators(s, i1, i2);
    assert CleanParts(protocol, authority, identifier) by {
      assert forall k :: 0 <= k < |protocol| ==> protocol[k] == s[k];
      assert forall k :: 0 <= k < |authority| ==> authority[k] == s[i1 + 1 + k];
    }
  }

  /** Text with ':' at i1 and '/' at i2 is the three slices around them, put together. */
  lemma TextAroundSeparators(s: string, i1: nat, i2: nat)
    requires i1 < i2 < |s| && s[i1] == ':' && s[i2] == '/'
    ensures s == AsText(s[..i1], s[i1 + 1..i2], s[i2 + 1..])
  {
    var rest := s[i1 + 1..];
    assert rest == s[i1 + 1..i2] + [s[i2]] + s[i2 + 1..] by {
      assert rest == rest[..i2 - i1 - 1] + rest[i2 - i1 - 1..];
    }
    assert s == s[..i1] + [s[i1]] + rest;
  }

  /**
   * Round trip: a global id whose parts are already clean (formatting leaves them as they
   * are), free of NUL, with a valid DOI prefix when it is a DOI, an authority without '/'
   * and a non-empty identifier, parses back from its text form to itself.
   */
  lemma ParseAsTextRoundTrip(h: IdHelpers, protocol: string, authority: string, identifier: string)
    requires IsSupportedProtocol(protocol)
    requires forall k :: 0 <= k < |authority| ==> authority[k] != '/'
    requires identifier != []
    requires h.format(authority) == authority && h.format(identifier) == identifier
    requires !h.hasNullTerminator(authority) && !h.hasNullTerminator(identifier)
    requires protocol == DoiProtocol ==> h.checkDoiAuthority(authority)
    ensures ParsePersistentId(h, Some(AsText(protocol, authority, identifier)))
            == Some(GlobalId(Some(protocol), Some(authority), identifier))
  {
    ParseSplitsComposedText(h, protocol, authority, identifier);
  }
}
