/** The decisions of the navigation state machine that can be stated over
    what the browser reports: arrival verification with its direct-URL
    fallback, the content-frame search, the "detailed conditions" toggle and
    the choice of the main search button. Browser actions themselves are
    left to the caller; their observable results are the inputs here. */
module Navigation {
  import opened Wrappers
  import opened Text
  import opened Signatures

  /** An `input` element of the current page: its `id` and `name` attributes. */
  datatype InputAttrs = InputAttrs(id: Option<string>, name: Option<string>)

  /** `input[id*="inqrBgnDt"]`, `input[name="taskClCd"]` or `input[id*="dminInstCd"]`:
      a field that exists only on the bid search form. */
  predicate IsMarkerInput(i: InputAttrs) {
    (i.id.Some? && Contains(i.id.value, "inqrBgnDt")) ||
    i.name == Some("taskClCd") ||
    (i.id.Some? && Contains(i.id.value, "dminInstCd"))
  }

  /** The marker check on one page: the inputs the page evaluation reported,
      or None when the evaluation threw, which leaves the check false. */
  predicate MarkersPresent(probe: Option<seq<InputAttrs>>) {
    probe.Some? && exists k :: 0 <= k < |probe.value| && IsMarkerInput(probe.value[k])
  }

  /** The title of the portal's home page. */
  const HomeTitle := "나라장터"

  /** How arrival verification ends. The last two end the run. */
  datatype Arrival =
    | OnSearchForm              // the menu path reached the search form
    | OnSearchFormViaDirectUrl  // the direct deep link reached it
    | DirectUrlFailed           // the direct deep link did not reach it either
    | NotOnSearchForm           // some other page, and no fallback is tried

  predicate IsFatal(a: Arrival) {
    a == DirectUrlFailed || a == NotOnSearchForm
  }

  predicate TriedDirectUrl(a: Arrival) {
    a == OnSearchFormViaDirectUrl || a == DirectUrlFailed
  }

  /** Arrival verification: the page reached through the menus is checked for
      marker inputs; the direct URL is tried only when the title is still the
      home page's and no marker is present, and then the marker check is
      repeated on the page it loads (`directPage`); the run is abandoned when
      the final check fails. */
  function VerifyArrival(title: string, menuPage: Option<seq<InputAttrs>>,
                         directPage: Option<seq<InputAttrs>>): (a: Arrival)
    ensures TriedDirectUrl(a) <==> title == HomeTitle && !MarkersPresent(menuPage)
    ensures a == OnSearchForm <==> MarkersPresent(menuPage)
    ensures TriedDirectUrl(a) ==> (IsFatal(a) <==> !MarkersPresent(directPage))
    ensures a == NotOnSearchForm <==> title != HomeTitle && !MarkersPresent(menuPage)
    ensures !IsFatal(a) <==>
      MarkersPresent(menuPage) || (title == HomeTitle && MarkersPresent(directPage))
  {
    var onOrderListPage := MarkersPresent(menuPage);
    if title == HomeTitle && !onOrderListPage then
      if MarkersPresent(directPage) then OnSearchFormViaDirectUrl else DirectUrlFailed
    else if onOrderListPage then OnSearchForm
    else NotOnSearchForm
  }

  /** The page loaded by the direct URL matters only when the fallback is taken. */
  lemma DirectPageOnlyReadOnFallback(title: string, menuPage: Option<seq<InputAttrs>>,
                                     p1: Option<seq<InputAttrs>>, p2: Option<seq<InputAttrs>>)
    requires !(title == HomeTitle && !MarkersPresent(menuPage))
    ensures VerifyArrival(title, menuPage, p1) == VerifyArrival(title, menuPage, p2)
  {
  }

  /** Number of polling rounds of the content-frame search. */
  const FrameSearchRounds: nat := 10

  datatype ContentTarget = ContentFrame(round: nat, index: nat) | TopPage

  /** The content-frame search: in each of ten rounds, the frames' texts
      (`rounds[i]`, None for a frame whose text could not be read) are tried in
      order and the first one with the content signature is taken; when no
      round finds one, the top-level page is used. */
  method FindContentFrame(rounds: seq<seq<Option<string>>>) returns (target: ContentTarget)
    requires |rounds| == FrameSearchRounds
    ensures target.ContentFrame? ==>
      target.round < |rounds| && target.index < |rounds[target.round]| &&
      IsContentFrameText(FrameText(rounds[target.round][target.index])) &&
      rounds[target.round][target.index].Some?
    ensures target.ContentFrame? ==> forall j :: 0 <= j < target.index ==>
      !IsContentFrameText(FrameText(rounds[target.round][j]))
    ensures target.ContentFrame? ==> forall r, j :: 0 <= r < target.round && 0 <= j < |rounds[r]| ==>
      !IsContentFrameText(FrameText(rounds[r][j]))
    ensures target.TopPage? <==> forall r, j :: 0 <= r < |rounds| && 0 <= j < |rounds[r]| ==>
      !IsContentFrameText(FrameText(rounds[r][j]))
  {
    var targetFrame: Option<nat> := None;
    var i := 0;
    while i < FrameSearchRounds
      invariant 0 <= i <= FrameSearchRounds
      invariant targetFrame.None?
      invariant forall r, j :: 0 <= r < i && 0 <= j < |rounds[r]| ==>
        !IsContentFrameText(FrameText(rounds[r][j]))
    {
      var frames := rounds[i];
      var k := 0;
      while k < |frames|
        invariant 0 <= k <= |frames|
        invariant targetFrame.None?
        invariant forall j :: 0 <= j < k ==> !IsContentFrameText(FrameText(frames[j]))
      {
        if IsContentFrameText(FrameText(frames[k])) {
          targetFrame := Some(k);
          break;
        }
        k := k + 1;
      }
      if targetFrame.Some? {
        break;
      }
      i := i + 1;
    }
    if targetFrame.Some? {
      target := ContentFrame(i, targetFrame.value);
    } else {
      target := TopPage;
    }
  }

  datatype ToggleOutcome = AlreadyOpen | ClickedToggle(index: nat) | ClickedToggleById | NoToggle

  /** Opening the detailed search conditions: nothing to do when the agency
      input is already visible; otherwise the first element (of `toggleTexts`,
      the trimmed texts of the page's links, buttons, spans and labels) whose
      text is in the toggle vocabulary is clicked, else an element whose id
      mentions `btnSearchToggle`, if there is one. */
  function OpenDetailedSearch(agencyInputVisible: bool, toggleTexts: seq<string>,
                              idToggleExists: bool): (r: ToggleOutcome)
    ensures r == AlreadyOpen <==> agencyInputVisible
    ensures r.ClickedToggle? ==>
      r.index < |toggleTexts| && IsDetailToggle(toggleTexts[r.index]) &&
      forall j :: 0 <= j < r.index ==> !IsDetailToggle(toggleTexts[j])
    ensures r.ClickedToggle? <==>
      !agencyInputVisible && exists j :: 0 <= j < |toggleTexts| && IsDetailToggle(toggleTexts[j])
    ensures r == ClickedToggleById <==>
      !agencyInputVisible && idToggleExists &&
      forall j :: 0 <= j < |toggleTexts| ==> !IsDetailToggle(toggleTexts[j])
  {
    if agencyInputVisible then AlreadyOpen
    else match FirstIndex(toggleTexts, IsDetailToggle)
      case Some(k) => ClickedToggle(k)
      case None => if idToggleExists then ClickedToggleById else NoToggle
  }

  datatype SearchClick = ClickedCandidate(index: nat) | ClickedButtonArea | NoSearchClick

  /** Triggering the search: the candidates are scanned in order and the first
      with the search signature and none of the exclusions is clicked; when
      there is none, the first button of the button area is clicked if the
      page has one. */
  method ClickMainSearch(cands: seq<ButtonAttrs>, buttonAreaPresent: bool) returns (click: SearchClick)
    ensures click.ClickedCandidate? ==>
      click.index < |cands| && IsMainSearchButton(cands[click.index]) &&
      forall j :: 0 <= j < click.index ==> !IsMainSearchButton(cands[j])
    ensures !click.ClickedCandidate? <==> forall j :: 0 <= j < |cands| ==> !IsMainSearchButton(cands[j])
    ensures click.ClickedButtonArea? <==>
      buttonAreaPresent && forall j :: 0 <= j < |cands| ==> !IsMainSearchButton(cands[j])
  {
    var mainSearchClicked := false;
    click := NoSearchClick;
    var i := 0;
    while i < |cands|
      invariant 0 <= i <= |cands|
      invariant forall j :: 0 <= j < i ==> !IsMainSearchButton(cands[j])
    {
      var b := cands[i];
      if IsSearchSignature(b) {
        if ExcludedById(b) || ExcludedByClass(b) || ExcludedByText(b) {
          i := i + 1;
          continue;
        }
        click := ClickedCandidate(i);
        mainSearchClicked := true;
        break;
      }
      i := i + 1;
    }
    if !mainSearchClicked && buttonAreaPresent {
      click := ClickedButtonArea;
    }
  }
}
