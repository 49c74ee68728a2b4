/** The script injection of the report page builder (BN/build_page.py):
    the loader script replaces a placeholder comment when the template has
    one, otherwise goes in front of the last closing body tag (matched
    without regard to case), otherwise at the end. */
module Page {
  import opened Wrappers
  import opened Text

  const Marker: string := "<!--REPORT_SCRIPT-->"
  const BodyClose: string := "</body>"

  /** inject_script_into_html(html, tag) */
  function InjectScript(html: string, tag: string): string {
    if Contains(html, Marker) then ReplaceAll(html, Marker, tag)
    else
      match RFind(Lower(html), BodyClose)
      case Some(i) => html[..i] + tag + html[i..]
      case None => html + tag
  }

  /** r is html with tag inserted at position i. */
  predicate SplicedAt(html: string, tag: string, r: string, i: int) {
    0 <= i <= |html| && r == html[..i] + tag + html[i..]
  }

  /** r is html with every occurrence of m replaced by t: the pieces between
      the occurrences are kept, in order. */
  ghost predicate ReplacedEach(html: string, m: string, t: string, r: string) {
    exists pieces: seq<string> ::
      Join(pieces, m) == html && Join(pieces, t) == r
      && forall p :: p in pieces ==> !Contains(p, m)
  }

  /** With the placeholder present, every occurrence of it is replaced by
      the tag and the text between occurrences is unchanged. */
  lemma InjectAtMarker(html: string, tag: string)
    requires Contains(html, Marker)
    ensures ReplacedEach(html, Marker, tag, InjectScript(html, tag))
  {
    var pieces := SplitOn(html, Marker);
    SplitOnJoin(html, Marker);
    SplitOnPiecesFree(html, Marker);
    assert Join(pieces, Marker) == html && Join(pieces, tag) == InjectScript(html, tag);
  }

  /** Without the placeholder the tag is spliced in at one position. */
  lemma InjectSplices(html: string, tag: string)
    requires !Contains(html, Marker)
    ensures exists i :: SplicedAt(html, tag, InjectScript(html, tag), i)
  {
    match RFind(Lower(html), BodyClose)
    case Some(i) =>
      assert SplicedAt(html, tag, InjectScript(html, tag), i);
    case None =>
      assert html[..|html|] == html && html[|html|..] == [];
      assert SplicedAt(html, tag, InjectScript(html, tag), |html|);
  }

  /** Cutting the tag out of a splice gives the page back, and the page
      grows by exactly the tag's length. */
  lemma SpliceRemovable(html: string, tag: string, r: string, i: int)
    requires SplicedAt(html, tag, r, i)
    ensures |r| == |html| + |tag|
    ensures r[i..i + |tag|] == tag
    ensures r[..i] + r[i + |tag|..] == html
  {
    assert r[..i] == html[..i];
    assert r[i + |tag|..] == html[i..];
  }

  /** The splice point is the last case-insensitive "</body>", and the tag
      then stands immediately before it. */
  lemma InjectBeforeLastBody(html: string, tag: string, i: nat)
    requires !Contains(html, Marker)
    requires OccursAt(Lower(html), BodyClose, i)
    requires forall j :: i < j ==> !OccursAt(Lower(html), BodyClose, j)
    ensures SplicedAt(html, tag, InjectScript(html, tag), i)
    ensures OccursAt(Lower(InjectScript(html, tag)), BodyClose, i + |tag|)
  {
    var k := RFind(Lower(html), BodyClose);
    assert k.Some?;
    assert k.value == i;
    var r := InjectScript(html, tag);
    assert r == html[..i] + tag + html[i..];
    LowerConcat(html[..i] + tag, html[i..]);
    LowerSlice(html, i, |html|);
    assert Lower(r)[i + |tag|..] == Lower(html)[i..];
    assert Lower(r)[i + |tag|..i + |tag| + |BodyClose|] == Lower(html)[i..i + |BodyClose|];
  }

  /** With neither the placeholder nor a closing body tag, the tag is appended. */
  lemma InjectAppends(html: string, tag: string)
    requires !Contains(html, Marker)
    requires forall j :: !OccursAt(Lower(html), BodyClose, j)
    ensures InjectScript(html, tag) == html + tag
  {
    var k := RFind(Lower(html), BodyClose);
    assert k.None?;
  }
}
