/** The element- and frame-matching signatures the navigation uses to find
    things on a page that offers no stable selectors: popup close controls,
    the "detailed conditions" toggle, the agency label, the main search
    button, and the content frame. Each is a predicate over what the browser
    reports about an element or a frame. */
module Signatures {
  import opened Wrappers
  import opened Text

  /** What `el.className` holds: a string for HTML elements, an
      `SVGAnimatedString` object (not a string) for SVG elements. */
  datatype ClassName = ClassString(s: string) | ClassObject

  /** `typeof className === 'string' && className.includes(sub)` */
  predicate ClassIncludes(c: ClassName, sub: string) {
    c.ClassString? && Contains(c.s, sub)
  }

  const CloseText := "닫기"
  const CloseWindowText := "창닫기"
  const NotTodayText := "오늘 하루 열지"

  /** The popup-close signature: the trimmed text is "close" or "close window"
      or mentions "don't open today", or the `alt` attribute is one of the two
      close labels, or the class name (when it is a non-empty string) mentions "close". */
  predicate IsPopupClose(text: string, alt: Option<string>, cls: ClassName) {
    text == CloseText || text == CloseWindowText || Contains(text, NotTodayText) ||
    alt == Some(CloseText) || alt == Some(CloseWindowText) ||
    (cls.ClassString? && cls.s != "" && Contains(cls.s, "close"))
  }

  /** The three attributes the popup scan reads from an element. */
  datatype PopupAttrs = PopupAttrs(text: string, alt: Option<string>, cls: ClassName)

  /** One element the popup scan visits, frame by frame in document order:
      what reading its attributes gave (None when the read threw), and what
      the layout check `offsetParent !== null` gave (None when it threw). */
  datatype PopupCandidate = PopupCandidate(attrs: Option<PopupAttrs>, visible: Option<bool>)

  /** The scan clicks an element whose attributes match the close signature
      and that the layout check reports visible. */
  predicate ShouldClose(c: PopupCandidate) {
    c.attrs.Some? && IsPopupClose(c.attrs.value.text, c.attrs.value.alt, c.attrs.value.cls) &&
    c.visible == Some(true)
  }

  predicate AttrsUnreadable(c: PopupCandidate) {
    c.attrs.None?
  }

  /** The `closeMainPopups` scan: visit the elements in order, click each
      visible match; a failing layout check or click skips that element only,
      but a failing attribute read ends the whole scan (it is caught by the
      outer handler). Returns the positions clicked. */
  method DismissPopups(cands: seq<PopupCandidate>) returns (clicked: seq<nat>)
    ensures forall k :: k in clicked <==>
      (0 <= k < |cands| && ShouldClose(cands[k]) &&
       forall j :: 0 <= j <= k ==> !AttrsUnreadable(cands[j]))
    ensures forall a, b :: 0 <= a < b < |clicked| ==> clicked[a] < clicked[b]
  {
    clicked := [];
    var i := 0;
    while i < |cands|
      invariant 0 <= i <= |cands|
      invariant forall j :: 0 <= j < i ==> !AttrsUnreadable(cands[j])
      invariant forall k :: k in clicked <==> (0 <= k < i && ShouldClose(cands[k]))
      invariant forall a, b :: 0 <= a < b < |clicked| ==> clicked[a] < clicked[b]
      invariant forall a :: 0 <= a < |clicked| ==> clicked[a] < i
    {
      var c := cands[i];
      if c.attrs.None? {
        break;
      }
      if IsPopupClose(c.attrs.value.text, c.attrs.value.alt, c.attrs.value.cls) {
        if c.visible == Some(true) {
          clicked := clicked + [i];
        }
      }
      i := i + 1;
    }
  }

  /** The "detailed conditions" toggle vocabulary, matched against trimmed text. */
  predicate IsDetailToggle(text: string) {
    text == "상세조건" || text == "상세조건 열기" || text == "검색조건 더보기"
  }

  /** One node on the path from an element up to the document root. */
  datatype Node = Node(id: string, classes: seq<string>)

  /** An element considered as the agency label: its trimmed text and its
      ancestry, the element itself first. */
  datatype LabelCandidate = LabelCandidate(text: string, ancestry: seq<Node>)

  /** `el.closest('.gnb') || el.closest('#header') || el.closest('.top_menu')`:
      the element or one of its ancestors belongs to the global chrome. */
  predicate InGlobalChrome(c: LabelCandidate) {
    exists i :: 0 <= i < |c.ancestry| &&
      ("gnb" in c.ancestry[i].classes || c.ancestry[i].id == "header" ||
       "top_menu" in c.ancestry[i].classes)
  }

  const DemandAgencyLabel := "수요기관"
  const OrderingAgencyLabel := "발주기관"

  /** The agency-label signature: the exact label text, outside the global chrome. */
  predicate IsAgencyLabel(c: LabelCandidate) {
    !InGlobalChrome(c) && (c.text == DemandAgencyLabel || c.text == OrderingAgencyLabel)
  }

  /** The label search: the first candidate that is an agency label outside
      the global chrome; chrome elements are passed over whatever their text. */
  function FindAgencyLabel(cands: seq<LabelCandidate>): (r: Option<nat>)
    ensures r.Some? ==> (r.value < |cands| && !InGlobalChrome(cands[r.value]) &&
      cands[r.value].text in {DemandAgencyLabel, OrderingAgencyLabel})
    ensures r.Some? ==> forall j :: 0 <= j < r.value ==>
      InGlobalChrome(cands[j]) || cands[j].text !in {DemandAgencyLabel, OrderingAgencyLabel}
    ensures r.None? <==> forall j :: 0 <= j < |cands| ==>
      InGlobalChrome(cands[j]) || cands[j].text !in {DemandAgencyLabel, OrderingAgencyLabel}
  {
    FirstIndex(cands, IsAgencyLabel)
  }

  /** The attributes the search-button scan reads from a candidate: `id`,
      trimmed `textContent`, `value` (absent on links), `alt` (null when
      absent) and `className`. */
  datatype ButtonAttrs = ButtonAttrs(
    id: string,
    text: string,
    value: Option<string>,
    alt: Option<string>,
    cls: ClassName)

  /** `el.textContent?.trim() || el.value || el.getAttribute('alt')`: the first
      of the three that is a non-empty string, else whatever `alt` gave. */
  function ButtonLabel(b: ButtonAttrs): (t: Option<string>)
    ensures b.text != "" ==> t == Some(b.text)
    ensures b.text == "" && b.value.Some? && b.value.value != "" ==> t == b.value
    ensures b.text == "" && (b.value.None? || b.value == Some("")) ==> t == b.alt
  {
    if b.text != "" then Some(b.text)
    else if b.value.Some? && b.value.value != "" then b.value
    else b.alt
  }

  /** The search-button signature: a search id, the exact text "search" or
      "query", or a search class. */
  predicate IsSearchSignature(b: ButtonAttrs) {
    (b.id != "" && (Contains(b.id, "btnS0001") || Contains(b.id, "btnSearch") || Contains(b.id, "S0001"))) ||
    ButtonLabel(b) == Some("검색") || ButtonLabel(b) == Some("조회") ||
    ClassIncludes(b.cls, "btn_search") || ClassIncludes(b.cls, "search")
  }

  /** Exclusion by id: a global-navigation or header id. */
  predicate ExcludedById(b: ButtonAttrs) {
    b.id != "" && (Contains(b.id, "gnb") || Contains(b.id, "global") ||
                   Contains(b.id, "header") || Contains(b.id, "Global"))
  }

  /** Exclusion by class: a navigation-bar or top-bar class. */
  predicate ExcludedByClass(b: ButtonAttrs) {
    ClassIncludes(b.cls, "gnb") || ClassIncludes(b.cls, "top")
  }

  /** Exclusion by text: the "no results for this search term" message. */
  predicate ExcludedByText(b: ButtonAttrs) {
    ButtonLabel(b).Some? && ButtonLabel(b).value != "" && Contains(ButtonLabel(b).value, "해당 검색어")
  }

  /** A candidate the search scan clicks: it has the signature and none of the exclusions. */
  predicate IsMainSearchButton(b: ButtonAttrs) {
    IsSearchSignature(b) && !ExcludedById(b) && !ExcludedByClass(b) && !ExcludedByText(b)
  }

  const TitleColumnMarker := "공고명"

  /** The content-frame signature: the frame's text mentions the title column
      and one of the two agency columns. */
  predicate IsContentFrameText(t: string) {
    Contains(t, TitleColumnMarker) && (Contains(t, DemandAgencyLabel) || Contains(t, OrderingAgencyLabel))
  }

  /** A frame's text as the search sees it: reading it may fail, and a failed
      read counts as the empty text. */
  function FrameText(probe: Option<string>): string {
    match probe
    case Some(t) => t
    case None => ""
  }
}
