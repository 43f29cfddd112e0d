/**
 * `extractCellData`, identical in src/content/sidebar.js and content.js: a cell's trimmed
 * text, and its anchors sorted into at most one link per category. Each anchor goes to the
 * first category whose test its `href` passes; a later link of a category replaces an
 * earlier one, except that a link outside getlatka.com only fills an empty `website`.
 */
module CellLinks {
  import opened JsText
  import opened SeqUtil
  import opened Page

  datatype LinkKind = LinkedIn | YouTube | Profile | Location | Industry | LatkaSite | Other

  /** The first test an `href` passes, in the order the source tries them. */
  function Classify(href: string): LinkKind {
    if Includes(href, "linkedin.com") then LinkedIn
    else if Includes(href, "youtube.com") || Includes(href, "youtu.be") then YouTube
    else if Includes(href, "getlatka.com/people/") then Profile
    else if Includes(href, "getlatka.com/companies/countries/") || Includes(href, "getlatka.com/companies/regions/") then Location
    else if Includes(href, "getlatka.com/companies/industries/") then Industry
    else if Includes(href, "getlatka.com") then LatkaSite
    else Other
  }

  /** `cellData.links`: each property absent until a link sets it. */
  datatype Links = Links(
    linkedin: Option<string>,
    youtube: Option<string>,
    profile: Option<string>,
    location: Option<string>,
    industry: Option<string>,
    website: Option<string>)

  const NoLinks := Links(None, None, None, None, None, None)

  /** `!cellData.links.website`: absent or the empty string. */
  predicate Unset(v: Option<string>) {
    v.None? || v.value == ""
  }

  /** One turn of the `forEach` over the anchors. */
  function AddLink(links: Links, href: string): Links {
    match Classify(href)
    case LinkedIn => links.(linkedin := Some(href))
    case YouTube => links.(youtube := Some(href))
    case Profile => links.(profile := Some(href))
    case Location => links.(location := Some(href))
    case Industry => links.(industry := Some(href))
    case LatkaSite => links.(website := Some(href))
    case Other =>
      if Unset(links.website) && StartsWith(href, "http") then links.(website := Some(href)) else links
  }

  /** The links of a cell whose anchors have these `href`s, in document order. */
  function LinksOf(hrefs: seq<string>): Links
    decreases |hrefs|
  {
    if |hrefs| == 0 then NoLinks else AddLink(LinksOf(hrefs[..|hrefs| - 1]), hrefs[|hrefs| - 1])
  }

  /** What `extractCellData` returns. */
  datatype CellData = CellData(text: string, links: Links)

  /** `extractCellData`, with its loop over the anchors. */
  method ExtractCellData(cell: Cell) returns (data: CellData)
    ensures data == CellData(Trim(cell.text), LinksOf(Hrefs(cell)))
  {
    var links := NoLinks;
    var i := 0;
    while i < |cell.anchors|
      invariant 0 <= i <= |cell.anchors|
      invariant links == LinksOf(Hrefs(cell)[..i])
    {
      assert Hrefs(cell)[..i + 1][..i] == Hrefs(cell)[..i];
      var href := cell.anchors[i].href;
      if Includes(href, "linkedin.com") {
        links := links.(linkedin := Some(href));
      } else if Includes(href, "youtube.com") || Includes(href, "youtu.be") {
        links := links.(youtube := Some(href));
      } else if Includes(href, "getlatka.com/people/") {
        links := links.(profile := Some(href));
      } else if Includes(href, "getlatka.com/companies/countries/") || Includes(href, "getlatka.com/companies/regions/") {
        links := links.(location := Some(href));
      } else if Includes(href, "getlatka.com/companies/industries/") {
        links := links.(industry := Some(href));
      } else if Includes(href, "getlatka.com") {
        links := links.(website := Some(href));
      } else if Unset(links.website) && StartsWith(href, "http") {
        links := links.(website := Some(href));
      }
      i := i + 1;
    }
    assert Hrefs(cell)[..|cell.anchors|] == Hrefs(cell);
    data := CellData(Trim(cell.text), links);
  }

  /** The position of the last `href` of a category, or -1 when there is none. */
  function LastOfKind(hrefs: seq<string>, k: LinkKind): (i: int)
    ensures -1 <= i < |hrefs|
    ensures i >= 0 ==> Classify(hrefs[i]) == k
    ensures forall j | i < j < |hrefs| :: Classify(hrefs[j]) != k
    decreases |hrefs|
  {
    if |hrefs| == 0 then -1
    else if Classify(hrefs[|hrefs| - 1]) == k then |hrefs| - 1
    else LastOfKind(hrefs[..|hrefs| - 1], k)
  }

  /** The position of the first `href` outside getlatka.com that starts with "http", or -1. */
  function FirstExternal(hrefs: seq<string>): (i: int)
    ensures -1 <= i < |hrefs|
    ensures i >= 0 ==> Classify(hrefs[i]) == Other && StartsWith(hrefs[i], "http")
    ensures forall j | 0 <= j < (if i < 0 then |hrefs| else i) ::
              !(Classify(hrefs[j]) == Other && StartsWith(hrefs[j], "http"))
    decreases |hrefs|
  {
    if |hrefs| == 0 then -1
    else if Classify(hrefs[0]) == Other && StartsWith(hrefs[0], "http") then 0
    else
      var i := FirstExternal(hrefs[1..]);
      if i < 0 then -1 else i + 1
  }

  /** The `href` at a position, or nothing for -1. */
  function At(hrefs: seq<string>, i: int): Option<string>
    requires -1 <= i < |hrefs|
  {
    if i < 0 then None else Some(hrefs[i])
  }

  /** The property of `Links` a category other than the site's own pages sets. */
  function Slot(l: Links, k: LinkKind): Option<string>
    requires k != LatkaSite && k != Other
  {
    match k
    case LinkedIn => l.linkedin
    case YouTube => l.youtube
    case Profile => l.profile
    case Location => l.location
    case Industry => l.industry
  }

  /** One anchor sets its own category's property and leaves the others alone. */
  lemma AddLinkSlot(l: Links, href: string, k: LinkKind)
    requires k != LatkaSite && k != Other
    ensures Slot(AddLink(l, href), k) == if Classify(href) == k then Some(href) else Slot(l, k)
  {
  }

  /**
   * The single-valued categories: `linkedin`, `youtube`, `profile`, `location` and
   * `industry` each hold the last link of their category, and are unset without one.
   */
  lemma {:induction false} LinksOfCategory(hrefs: seq<string>, k: LinkKind)
    requires k != LatkaSite && k != Other
    ensures Slot(LinksOf(hrefs), k) == At(hrefs, LastOfKind(hrefs, k))
    decreases |hrefs|
  {
    if |hrefs| > 0 {
      var init := hrefs[..|hrefs| - 1];
      LinksOfCategory(init, k);
      AddLinkSlot(LinksOf(init), hrefs[|hrefs| - 1], k);
      assert forall j | 0 <= j < |init| :: init[j] == hrefs[j];
    }
  }

  /** An empty `href` falls in no category. */
  lemma ClassifyEmpty()
    ensures Classify("") == Other
  {
    assert !Includes("", "linkedin.com");
    assert !Includes("", "youtube.com") && !Includes("", "youtu.be");
    assert !Includes("", "getlatka.com/people/");
    assert !Includes("", "getlatka.com/companies/countries/") && !Includes("", "getlatka.com/companies/regions/");
    assert !Includes("", "getlatka.com/companies/industries/");
    assert !Includes("", "getlatka.com");
  }

  /** How one anchor changes `website`. */
  lemma AddLinkWebsite(l: Links, href: string)
    ensures AddLink(l, href).website ==
              if Classify(href) == LatkaSite then Some(href)
              else if Classify(href) == Other && StartsWith(href, "http") && Unset(l.website) then Some(href)
              else l.website
  {
  }

  /** A link that sets `website` is never empty. */
  lemma {:induction false} WebsiteNonEmpty(hrefs: seq<string>)
    ensures LinksOf(hrefs).website.Some? ==> LinksOf(hrefs).website.value != ""
    decreases |hrefs|
  {
    if |hrefs| > 0 {
      var init := hrefs[..|hrefs| - 1];
      WebsiteNonEmpty(init);
      ClassifyEmpty();
      AddLinkWebsite(LinksOf(init), hrefs[|hrefs| - 1]);
    }
  }

  /**
   * `website` is the last getlatka.com link outside the other categories; without one, it
   * is the first link outside getlatka.com that starts with "http"; otherwise it is unset.
   */
  lemma {:induction false} LinksOfWebsite(hrefs: seq<string>)
    ensures LinksOf(hrefs).website ==
              if LastOfKind(hrefs, LatkaSite) >= 0 then Some(hrefs[LastOfKind(hrefs, LatkaSite)])
              else At(hrefs, FirstExternal(hrefs))
    decreases |hrefs|
  {
    if |hrefs| > 0 {
      var init := hrefs[..|hrefs| - 1];
      var last := hrefs[|hrefs| - 1];
      LinksOfWebsite(init);
      WebsiteNonEmpty(init);
      AddLinkWebsite(LinksOf(init), last);
      assert hrefs == init + [last];
      FirstExternalPrefix(init, last);
      assert forall j | 0 <= j < |init| :: init[j] == hrefs[j];
    }
  }

  /** The first external link of a list grown by one element. */
  lemma FirstExternalPrefix(init: seq<string>, last: string)
    ensures var f := FirstExternal(init + [last]);
      FirstExternal(init) >= 0 ==> f == FirstExternal(init)
    ensures var f := FirstExternal(init + [last]);
      FirstExternal(init) < 0 ==>
        f == (if Classify(last) == Other && StartsWith(last, "http") then |init| else -1)
  {
    var all := init + [last];
    var f := FirstExternal(all);
    var g := FirstExternal(init);
    assert forall j | 0 <= j < |init| :: all[j] == init[j];
    if g >= 0 {
      assert f <= g;
    } else {
      assert all[|init|] == last;
    }
  }
}
