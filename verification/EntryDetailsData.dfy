/**
 Season loading of the entry details page (entryDetailsData.ts).

 Every async function is cut at its awaits. `entries` and `seasonCalls` hold the
 suspended continuations; the scheduler resumes any of them, and the user acts,
 in any order. Requests settle with arbitrary values or failures.
 */
module EntryDetailsData {
  import opened Wrappers

  type Episode = string

  datatype Season = Season(id: string, link: Option<string>, episodes: seq<Episode>)

  datatype SeasonPage = SeasonPage(episodes: seq<Episode>, currentPage: int, haveMore: bool)

  /** JavaScript truthiness of a nullable string. */
  predicate Truthy(s: Option<string>) {
    s.Some? && s.value != ""
  }

  /** A suspended `loadSeasonPage`. */
  datatype SeasonCall = SeasonCall(season: Season, page: int, append: bool)

  /** Where a suspended `loadEntryDetails` waits. */
  datatype EntryWait =
    | ForDetails
    | ForRefusedSelection(seasons: seq<Season>)
    | ForSeason(request: nat)

  /** One response shown in the list: whose page it is, and what it held. */
  datatype Chunk = Chunk(season: Season, page: int, episodes: seq<Episode>)

  /** Season list state; `shown` and `chunks` record which season was loaded last and what its list is made of. */
  datatype SeasonState = SeasonState(
    seasonEpisodes: seq<Episode>,
    selectedSeasonId: Option<string>,
    isSeasonLoading: bool,
    isSeasonLoadingMore: bool,
    seasonErrorMessage: Option<string>,
    currentSeasonPage: int,
    hasMoreSeasonEpisodes: bool,
    latestSeasonRequestId: nat,
    seasonCalls: map<nat, SeasonCall>,
    shown: Option<Season>,
    chunks: seq<Chunk>)

  datatype State = State(
    details: Option<seq<Season>>,
    isLoading: bool,
    errorMessage: Option<string>,
    latestRequestId: nat,
    entries: map<nat, EntryWait>,
    season: SeasonState)

  const NO_SEASON := SeasonState([], None, false, false, None, 1, false, 0, map[], None, [])
  const INITIAL := State(None, false, None, 0, map[], NO_SEASON)

  // --- Segments of the season list -----------------------------------------

  function ResetSeasonState(q: SeasonState): SeasonState {
    q.(latestSeasonRequestId := q.latestSeasonRequestId + 1, selectedSeasonId := None, seasonEpisodes := [],
       seasonErrorMessage := None, isSeasonLoading := false, isSeasonLoadingMore := false,
       currentSeasonPage := 1, hasMoreSeasonEpisodes := false, shown := None, chunks := [])
  }

  /** The bookkeeping at the head of `loadSeasonPage`. */
  function OpenSeasonPage(q: SeasonState, season: Season, append: bool): SeasonState {
    var selected := q.(latestSeasonRequestId := q.latestSeasonRequestId + 1, selectedSeasonId := Some(season.id),
                       seasonErrorMessage := None, shown := Some(season));
    if append then selected.(isSeasonLoadingMore := true)
    else selected.(seasonEpisodes := [], isSeasonLoading := true, isSeasonLoadingMore := false,
                   currentSeasonPage := 1, hasMoreSeasonEpisodes := false, chunks := [])
  }

  /** `loadSeasonPage` up to its request, or to its end when it needs none. */
  function BeginSeasonPage(q: SeasonState, season: Season, page: int, append: bool): SeasonState {
    var started := OpenSeasonPage(q, season, append);
    if season.episodes != [] then
      started.(seasonEpisodes := season.episodes, currentSeasonPage := 1, hasMoreSeasonEpisodes := false,
               isSeasonLoading := false, isSeasonLoadingMore := false, chunks := [])
    else if !Truthy(season.link) then
      started.(seasonEpisodes := [], isSeasonLoading := false, isSeasonLoadingMore := false, chunks := [])
    else
      started.(seasonCalls := q.seasonCalls[started.latestSeasonRequestId := SeasonCall(season, page, append)])
  }

  /** The rest of `loadSeasonPage` once its request settled. */
  function FinishSeasonPage(q: SeasonState, request: nat, result: Result<SeasonPage, string>): SeasonState
    requires request in q.seasonCalls
  {
    var call := q.seasonCalls[request];
    var resumed := q.(seasonCalls := q.seasonCalls - {request});
    if request != q.latestSeasonRequestId then resumed else
      var settled := match result
        case Ok(page) =>
          var chunk := Chunk(call.season, call.page, page.episodes);
          resumed.(seasonEpisodes := if call.append then q.seasonEpisodes + page.episodes else page.episodes,
                   chunks := if call.append then q.chunks + [chunk] else [chunk],
                   currentSeasonPage := page.currentPage, hasMoreSeasonEpisodes := page.haveMore)
        case Err(message) =>
          var cleared := if call.append then resumed else resumed.(seasonEpisodes := [], chunks := []);
          cleared.(seasonErrorMessage := Some(message));
      if call.append then settled.(isSeasonLoadingMore := false) else settled.(isSeasonLoading := false)
  }

  // --- Segments of the entry -----------------------------------------------

  function FindSeason(seasons: seq<Season>, id: string): (r: Option<Season>)
    ensures r.Some? ==> r.value in seasons && r.value.id == id
    ensures r.None? ==> forall s | s in seasons :: s.id != id
  {
    if seasons == [] then None
    else if seasons[0].id == id then Some(seasons[0])
    else FindSeason(seasons[1..], id)
  }

  function SeasonOf(s: State, id: Option<string>): Option<Season> {
    if id.None? || s.details.None? then None else FindSeason(s.details.value, id.value)
  }

  function SelectedSeason(s: State): Option<Season> {
    SeasonOf(s, s.season.selectedSeasonId)
  }

  function BeginEntry(s: State): State {
    State(None, true, None, s.latestRequestId + 1, s.entries[s.latestRequestId + 1 := ForDetails],
          ResetSeasonState(s.season))
  }

  /** The `finally` block of `loadEntryDetails`. */
  function CloseEntry(s: State, request: nat): State {
    s.(entries := s.entries - {request}, isLoading := s.isLoading && request != s.latestRequestId)
  }

  /** Starts the first page of a season on behalf of an entry request, which then awaits it. */
  function BeginSeasonFor(s: State, request: nat, season: Season): State {
    var q := BeginSeasonPage(s.season, season, 1, false);
    s.(season := q, entries := s.entries[request := ForSeason(q.latestSeasonRequestId)])
  }

  function FinishDetails(s: State, request: nat, result: Result<seq<Season>, string>,
                         preferred: Option<string>): State
  {
    if request != s.latestRequestId then CloseEntry(s, request) else
      match result
      case Err(message) => CloseEntry(s.(details := None, errorMessage := Some(message)), request)
      case Ok(seasons) =>
        var loaded := s.(details := Some(seasons));
        if seasons == [] || Truthy(s.season.selectedSeasonId) then CloseEntry(loaded, request)
        else
          var restored := if Truthy(preferred) then FindSeason(seasons, preferred.value) else None;
          if restored.Some? then BeginSeasonFor(loaded, request, restored.value)
          else loaded.(entries := s.entries[request := ForRefusedSelection(seasons)])
  }

  predicate HasContent(season: Season) {
    season.episodes != [] || Truthy(season.link)
  }

  /**
   The continuation after `await selectSeasonById` answered false. It does not
   compare its request with the latest one before loading the first season.
   */
  function FallBackToFirst(s: State, request: nat): State
    requires request in s.entries && s.entries[request].ForRefusedSelection?
  {
    var seasons := s.entries[request].seasons;
    if seasons != [] && HasContent(seasons[0]) then BeginSeasonFor(s, request, seasons[0])
    else CloseEntry(s, request)
  }

  function SelectSeason(s: State, id: string): State {
    var season := SeasonOf(s, Some(id));
    if season.None? then s else s.(season := BeginSeasonPage(s.season, season.value, 1, false))
  }

  function LoadMore(s: State): State {
    var season, q := SelectedSeason(s), s.season;
    if season.None? || !Truthy(season.value.link) || !q.hasMoreSeasonEpisodes || q.isSeasonLoadingMore then s
    else s.(season := BeginSeasonPage(q, season.value, q.currentSeasonPage + 1, true))
  }

  // --- Transition system ---------------------------------------------------

  datatype Step =
    | OpenEntry
    | DetailsSettled(request: nat, details: Result<seq<Season>, string>, preferred: Option<string>)
    | Fallback(request: nat)
    | SeasonAwaited(request: nat)
    | UserSelects(id: string)
    | UserLoadsMore
    | PageSettled(request: nat, page: Result<SeasonPage, string>)

  predicate Enabled(s: State, step: Step) {
    match step
    case DetailsSettled(r, _, _) => r in s.entries && s.entries[r].ForDetails?
    case Fallback(r) => r in s.entries && s.entries[r].ForRefusedSelection?
    case SeasonAwaited(r) =>
      r in s.entries && s.entries[r].ForSeason? && s.entries[r].request !in s.season.seasonCalls
    case PageSettled(r, _) => r in s.season.seasonCalls
    case _ => true
  }

  function Apply(s: State, step: Step): State
    requires Enabled(s, step)
  {
    match step
    case OpenEntry => BeginEntry(s)
    case DetailsSettled(r, result, preferred) => FinishDetails(s, r, result, preferred)
    case Fallback(r) => FallBackToFirst(s, r)
    case SeasonAwaited(r) => CloseEntry(s, r)
    case UserSelects(id) => SelectSeason(s, id)
    case UserLoadsMore => LoadMore(s)
    case PageSettled(r, result) => s.(season := FinishSeasonPage(s.season, r, result))
  }

  ghost predicate Path(s: State, steps: seq<Step>, t: State)
    decreases |steps|
  {
    if steps == [] then s == t
    else Enabled(s, steps[0]) && Path(Apply(s, steps[0]), steps[1..], t)
  }

  // --- Flags and staleness, on every schedule ------------------------------

  /** The call of the latest season request, while it is outstanding. */
  ghost function Outstanding(q: SeasonState): Option<SeasonCall> {
    if q.latestSeasonRequestId in q.seasonCalls then Some(q.seasonCalls[q.latestSeasonRequestId]) else None
  }

  ghost predicate SeasonFlags(q: SeasonState) {
    && (forall k | k in q.seasonCalls :: k <= q.latestSeasonRequestId)
    && (q.isSeasonLoading <==> Outstanding(q).Some? && !Outstanding(q).value.append)
    && (q.isSeasonLoadingMore <==> Outstanding(q).Some? && Outstanding(q).value.append)
    && (q.isSeasonLoading ==> !q.hasMoreSeasonEpisodes)
  }

  ghost predicate EntryFlags(s: State) {
    && (forall r | r in s.entries :: r <= s.latestRequestId)
    && (s.isLoading <==> s.latestRequestId in s.entries)
  }

  lemma BeginKeepsFlags(q: SeasonState, season: Season, page: int, append: bool)
    requires SeasonFlags(q) && (append ==> !q.isSeasonLoading)
    ensures SeasonFlags(BeginSeasonPage(q, season, page, append))
  {
  }

  lemma FinishKeepsFlags(q: SeasonState, request: nat, result: Result<SeasonPage, string>)
    requires SeasonFlags(q) && request in q.seasonCalls
    ensures SeasonFlags(FinishSeasonPage(q, request, result))
  {
  }

  lemma StepKeepsFlags(s: State, step: Step)
    requires SeasonFlags(s.season) && EntryFlags(s) && Enabled(s, step)
    ensures SeasonFlags(Apply(s, step).season) && EntryFlags(Apply(s, step))
  {
    forall season: Season ensures SeasonFlags(BeginSeasonPage(s.season, season, 1, false)) {
      BeginKeepsFlags(s.season, season, 1, false);
    }
    match step
    case OpenEntry =>
    case DetailsSettled(r, result, preferred) =>
    case Fallback(r) =>
    case SeasonAwaited(r) =>
    case UserSelects(id) =>
    case UserLoadsMore =>
      if SelectedSeason(s).Some? && s.season.hasMoreSeasonEpisodes {
        BeginKeepsFlags(s.season, SelectedSeason(s).value, s.season.currentSeasonPage + 1, true);
      }
    case PageSettled(r, result) => FinishKeepsFlags(s.season, r, result);
  }

  /**
   On every schedule the loading flags are never both set and say exactly what
   the latest request is waiting for.
   */
  lemma {:induction false} FlagsFollowLatestRequest(s: State, steps: seq<Step>, t: State)
    requires SeasonFlags(s.season) && EntryFlags(s) && Path(s, steps, t)
    ensures SeasonFlags(t.season) && EntryFlags(t)
    ensures !(t.season.isSeasonLoading && t.season.isSeasonLoadingMore)
    decreases |steps|
  {
    if steps != [] {
      StepKeepsFlags(s, steps[0]);
      FlagsFollowLatestRequest(Apply(s, steps[0]), steps[1..], t);
    }
  }

  lemma CountersGrow(s: State, step: Step)
    requires Enabled(s, step)
    ensures s.season.latestSeasonRequestId <= Apply(s, step).season.latestSeasonRequestId
    ensures s.latestRequestId <= Apply(s, step).latestRequestId
  {
    match step
    case OpenEntry =>
    case DetailsSettled(r, result, preferred) =>
    case Fallback(r) =>
    case SeasonAwaited(r) =>
    case UserSelects(id) =>
    case UserLoadsMore =>
    case PageSettled(r, result) =>
  }

  /**
   Once another season request started, the response of an earlier one changes
   nothing that is shown, however much later it arrives; likewise for entries.
   */
  lemma {:induction false} OvertakenResponsesInert(s: State, steps: seq<Step>, t: State, request: nat, entry: nat,
      page: Result<SeasonPage, string>, details: Result<seq<Season>, string>, preferred: Option<string>)
    requires Path(s, steps, t)
    requires request < s.season.latestSeasonRequestId && entry < s.latestRequestId
    ensures request in t.season.seasonCalls ==>
              FinishSeasonPage(t.season, request, page)
              == t.season.(seasonCalls := t.season.seasonCalls - {request})
    ensures FinishDetails(t, entry, details, preferred) == t.(entries := t.entries - {entry})
    decreases |steps|
  {
    if steps != [] {
      CountersGrow(s, steps[0]);
      OvertakenResponsesInert(Apply(s, steps[0]), steps[1..], t, request, entry, page, details, preferred);
    }
  }

  // --- What the list holds -------------------------------------------------

  ghost function Concat(chunks: seq<Chunk>): seq<Episode> {
    if chunks == [] then [] else Concat(chunks[..|chunks| - 1]) + chunks[|chunks| - 1].episodes
  }

  /** Pages 1 to k of one season, in order and without gaps. */
  ghost predicate PagesOf(season: Season, chunks: seq<Chunk>) {
    forall i | 0 <= i < |chunks| :: chunks[i].season == season && chunks[i].page == i + 1
  }

  /** The list is what its season says it should be. */
  ghost predicate ListOf(q: SeasonState, season: Season) {
    if season.episodes != [] then q.seasonEpisodes == season.episodes && q.chunks == []
    else if !Truthy(season.link) then q.seasonEpisodes == [] && q.chunks == []
    else
      && q.seasonEpisodes == Concat(q.chunks)
      && PagesOf(season, q.chunks)
      && (q.chunks != [] ==> q.currentSeasonPage == |q.chunks|)
  }

  /** The outstanding request, if any, asks for the page after the ones shown. */
  ghost predicate AsksNextPage(q: SeasonState, season: Season) {
    Outstanding(q).Some? ==>
      var call := Outstanding(q).value;
      && call.season == season && season.episodes == [] && Truthy(season.link)
      && call.page == |q.chunks| + 1
      && (call.append <==> q.chunks != [])
  }

  ghost predicate ListInv(q: SeasonState) {
    && SeasonFlags(q)
    && (q.hasMoreSeasonEpisodes ==> q.chunks != [])
    && match q.shown
       case None => q.selectedSeasonId.None? && q.seasonEpisodes == [] && q.chunks == [] && Outstanding(q).None?
       case Some(season) =>
         && q.selectedSeasonId == Some(season.id)
         && ListOf(q, season) && AsksNextPage(q, season)
  }

  /** The season that was loaded is the one the current details list under the selected id. */
  ghost predicate Coherent(s: State) {
    SelectedSeason(s) == s.season.shown
  }

  ghost predicate EntryInv(s: State) {
    && EntryFlags(s)
    && (s.isLoading && s.entries[s.latestRequestId].ForDetails? ==> s.details.None?)
    && (s.isLoading && s.entries[s.latestRequestId].ForRefusedSelection? ==>
          s.details == Some(s.entries[s.latestRequestId].seasons))
  }

  ghost predicate Inv(s: State) {
    ListInv(s.season) && Coherent(s) && EntryInv(s)
  }

  /** The backend echoes the page number. */
  ghost predicate EchoesPage(s: State, step: Step)
    requires Enabled(s, step)
  {
    match step
    case PageSettled(k, Ok(page)) => page.currentPage == s.season.seasonCalls[k].page
    case _ => true
  }

  /** A fallback to the first of these seasons loads nothing, or the season the current details list under that id. */
  predicate FallbackFits(s: State, seasons: seq<Season>) {
    seasons == [] || !HasContent(seasons[0]) || SeasonOf(s, Some(seasons[0].id)) == Some(seasons[0])
  }

  predicate FallbacksFit(s: State, step: Step)
    requires Enabled(s, step)
  {
    step.Fallback? ==> FallbackFits(s, s.entries[step.request].seasons)
  }

  ghost predicate Orderly(s: State, step: Step)
    requires Enabled(s, step)
  {
    EchoesPage(s, step) && FallbacksFit(s, step)
  }

  ghost predicate EchoingPath(s: State, steps: seq<Step>)
    decreases |steps|
  {
    steps != [] ==> Enabled(s, steps[0]) && EchoesPage(s, steps[0]) && EchoingPath(Apply(s, steps[0]), steps[1..])
  }

  ghost predicate OrderlyPath(s: State, steps: seq<Step>)
    decreases |steps|
  {
    steps != [] ==> Enabled(s, steps[0]) && Orderly(s, steps[0]) && OrderlyPath(Apply(s, steps[0]), steps[1..])
  }

  /** The invariant holds before and after every step. */
  ghost predicate InvThroughout(s: State, steps: seq<Step>)
    decreases |steps|
  {
    Inv(s) && (steps != [] ==> Enabled(s, steps[0]) && InvThroughout(Apply(s, steps[0]), steps[1..]))
  }

  lemma FirstPageKeepsList(q: SeasonState, season: Season)
    requires ListInv(q)
    ensures ListInv(BeginSeasonPage(q, season, 1, false))
  {
    BeginKeepsFlags(q, season, 1, false);
  }

  lemma NextPageKeepsList(q: SeasonState, season: Season)
    requires ListInv(q) && q.shown == Some(season) && q.hasMoreSeasonEpisodes && !q.isSeasonLoadingMore
    ensures ListInv(BeginSeasonPage(q, season, q.currentSeasonPage + 1, true))
  {
    BeginKeepsFlags(q, season, q.currentSeasonPage + 1, true);
  }

  lemma FinishKeepsList(q: SeasonState, k: nat, result: Result<SeasonPage, string>)
    requires ListInv(q) && k in q.seasonCalls
    requires result.Ok? ==> result.value.currentPage == q.seasonCalls[k].page
    ensures ListInv(FinishSeasonPage(q, k, result)) && FinishSeasonPage(q, k, result).shown == q.shown
  {
    FinishKeepsFlags(q, k, result);
    var t := FinishSeasonPage(q, k, result);
    if k == q.latestSeasonRequestId && result.Ok? {
      assert t.chunks[..|t.chunks| - 1] == q.chunks;
    }
  }

  lemma StepKeepsList(s: State, step: Step)
    requires Inv(s) && Enabled(s, step) && Orderly(s, step)
    ensures ListInv(Apply(s, step).season)
  {
    forall season: Season ensures ListInv(BeginSeasonPage(s.season, season, 1, false)) {
      FirstPageKeepsList(s.season, season);
    }
    match step
    case OpenEntry =>
    case DetailsSettled(r, result, preferred) =>
    case Fallback(r) =>
    case SeasonAwaited(r) =>
    case UserSelects(id) =>
    case UserLoadsMore =>
      if SelectedSeason(s).Some? && s.season.hasMoreSeasonEpisodes && !s.season.isSeasonLoadingMore {
        NextPageKeepsList(s.season, SelectedSeason(s).value);
      }
    case PageSettled(k, result) => FinishKeepsList(s.season, k, result);
  }

  lemma FinishKeepsSelection(q: SeasonState, k: nat, result: Result<SeasonPage, string>)
    requires k in q.seasonCalls
    ensures var t := FinishSeasonPage(q, k, result); t.shown == q.shown && t.selectedSeasonId == q.selectedSeasonId
  {
  }

  lemma BeginSelects(q: SeasonState, season: Season, page: int, append: bool)
    ensures var t := BeginSeasonPage(q, season, page, append); t.shown == Some(season) && t.selectedSeasonId == Some(season.id)
  {
  }

  lemma DetailsKeepCoherence(s: State, r: nat, result: Result<seq<Season>, string>, preferred: Option<string>)
    requires Inv(s) && Enabled(s, DetailsSettled(r, result, preferred))
    ensures var t := FinishDetails(s, r, result, preferred); Coherent(t) && EntryInv(t)
  {
    hide ListOf, AsksNextPage, SeasonFlags, BeginSeasonPage;
    if r == s.latestRequestId && result.Ok? && Truthy(preferred) {
      var restored := FindSeason(result.value, preferred.value);
      if restored.Some? {
        BeginSelects(s.season, restored.value, 1, false);
      }
    }
  }

  /** The fallback of the latest request always fits: it loads the first of the current details. */
  lemma LatestFallbackFits(s: State, request: nat)
    requires Inv(s) && Enabled(s, Fallback(request)) && request == s.latestRequestId
    ensures FallbackFits(s, s.entries[request].seasons)
  {
    var seasons := s.entries[request].seasons;
    if seasons != [] {
      FirstIsFound(seasons);
    }
  }

  lemma StepKeepsCoherence(s: State, step: Step)
    requires Inv(s) && Enabled(s, step) && Orderly(s, step)
    ensures Coherent(Apply(s, step)) && EntryInv(Apply(s, step))
  {
    hide ListInv, FinishSeasonPage, FinishDetails, FindSeason, BeginSeasonPage;
    match step
    case OpenEntry =>
    case DetailsSettled(r, result, preferred) => DetailsKeepCoherence(s, r, result, preferred);
    case Fallback(r) =>
      var seasons := s.entries[r].seasons;
      if seasons != [] {
        BeginSelects(s.season, seasons[0], 1, false);
      }
    case SeasonAwaited(r) =>
    case UserSelects(id) =>
      if SeasonOf(s, Some(id)).Some? {
        BeginSelects(s.season, SeasonOf(s, Some(id)).value, 1, false);
      }
    case UserLoadsMore =>
      if SelectedSeason(s).Some? {
        BeginSelects(s.season, SelectedSeason(s).value, s.season.currentSeasonPage + 1, true);
      }
    case PageSettled(k, result) => FinishKeepsSelection(s.season, k, result);
  }

  lemma FirstIsFound(seasons: seq<Season>)
    requires seasons != []
    ensures FindSeason(seasons, seasons[0].id) == Some(seasons[0])
  {
  }

  predicate IsLinkLoaded(season: Season) {
    season.episodes == [] && Truthy(season.link)
  }

  /** The list of a link-loaded selected season is empty or its pages 1 to the current page, in order. */
  ghost predicate ShowsPages(s: State) {
    var season, q := SelectedSeason(s), s.season;
    season.Some? && IsLinkLoaded(season.value) ==>
      && q.seasonEpisodes == Concat(q.chunks) && PagesOf(season.value, q.chunks)
      && (q.chunks == [] || q.currentSeasonPage == |q.chunks|)
  }

  /**
   On every orderly schedule the list of a link-loaded selected season is empty
   or the concatenation of its pages 1 to the current page.
   */
  lemma {:induction false} ListIsPagesOfSelectedSeason(s: State, steps: seq<Step>, t: State)
    requires Inv(s) && Path(s, steps, t) && OrderlyPath(s, steps)
    ensures Inv(t)
    ensures ShowsPages(t)
    decreases |steps|
  {
    if steps != [] {
      StepKeepsList(s, steps[0]);
      StepKeepsCoherence(s, steps[0]);
      ListIsPagesOfSelectedSeason(Apply(s, steps[0]), steps[1..], t);
    }
  }

  // --- The unguarded fallback ----------------------------------------------

  /**
   A fallback, stale or not, leaves the page coherent exactly when it loads
   nothing or loads the season the current details list under that id.
   */
  lemma FallbackCoherentIff(s: State, request: nat)
    requires Inv(s) && Enabled(s, Fallback(request))
    ensures Inv(FallBackToFirst(s, request)) <==> FallbackFits(s, s.entries[request].seasons)
  {
    hide ListOf, AsksNextPage, SeasonFlags, FindSeason, ListInv;
    var seasons := s.entries[request].seasons;
    if seasons != [] {
      FirstPageKeepsList(s.season, seasons[0]);
    }
  }

  /**
   On a schedule whose backend echoes the page numbers, the list is what its
   selected season says at every moment exactly when every fallback fits.
   */
  lemma {:induction false} OrderlyIff(s: State, steps: seq<Step>)
    requires Inv(s) && EchoingPath(s, steps)
    ensures InvThroughout(s, steps) <==> OrderlyPath(s, steps)
    decreases |steps|
  {
    hide Inv, ListInv, Coherent, EntryInv, Apply, FallbackFits;
    if steps != [] {
      if Orderly(s, steps[0]) {
        StepKeepsInv(s, steps[0]);
        OrderlyIff(Apply(s, steps[0]), steps[1..]);
      } else {
        MisfitBreaksInv(s, steps[0]);
      }
    }
  }

  lemma StepKeepsInv(s: State, step: Step)
    requires Inv(s) && Enabled(s, step) && Orderly(s, step)
    ensures Inv(Apply(s, step))
  {
    hide ListInv, Coherent, EntryInv, Apply, Orderly;
    StepKeepsList(s, step);
    StepKeepsCoherence(s, step);
  }

  lemma MisfitBreaksInv(s: State, step: Step)
    requires Inv(s) && Enabled(s, step) && EchoesPage(s, step) && !Orderly(s, step)
    ensures !Inv(Apply(s, step))
  {
    hide Inv, FallbackFits, FallBackToFirst;
    FallbackCoherentIff(s, step.request);
  }

  /** The page after a fallback to a link-loaded season and the arrival of its first page. */
  function AfterFirstPage(s: State, request: nat, page: SeasonPage): State
    requires Enabled(s, Fallback(request))
    requires var seasons := s.entries[request].seasons; seasons != [] && IsLinkLoaded(seasons[0])
  {
    var t := FallBackToFirst(s, request);
    Apply(t, PageSettled(t.season.latestSeasonRequestId, Ok(page)))
  }

  /**
   Whether a fallback fits is seen on the page: if the current details list a
   link-loaded season under the id, then once the first page arrived the list
   holds the pages of the selected season exactly when the fallback fitted.
   */
  lemma FallbackShowsIff(s: State, request: nat, page: SeasonPage)
    requires Inv(s) && Enabled(s, Fallback(request)) && page.currentPage == 1
    requires var seasons := s.entries[request].seasons; seasons != [] && IsLinkLoaded(seasons[0])
    requires var listed := SeasonOf(s, Some(s.entries[request].seasons[0].id)); listed.Some? && IsLinkLoaded(listed.value)
    ensures ShowsPages(AfterFirstPage(s, request, page)) <==> FallbackFits(s, s.entries[request].seasons)
  {
    hide Inv, FindSeason;
    var season, t := s.entries[request].seasons[0], AfterFirstPage(s, request, page);
    var chunk := Chunk(season, 1, page.episodes);
    assert t.season.chunks == [chunk] && t.season.seasonEpisodes == page.episodes;
    assert SelectedSeason(t) == SeasonOf(s, Some(season.id));
    assert [chunk][..0] == [] && Concat([chunk]) == page.episodes;
    assert PagesOf(SelectedSeason(t).value, [chunk]) <==> [chunk][0].season == SelectedSeason(t).value;
  }

  // A schedule that opens a second entry before the first one's fallback ran.

  const BEFORE := Season("season-1", Some("/old"), [])
  const AFTER := Season("season-1", Some("/new"), [])

  const FALLEN_BACK := State(None, true, None, 2, map[1 := ForSeason(3), 2 := ForDetails], NO_SEASON.(
    latestSeasonRequestId := 3, selectedSeasonId := Some("season-1"),
    shown := Some(BEFORE), isSeasonLoading := true, seasonCalls := map[3 := SeasonCall(BEFORE, 1, false)]))

  const NEW_DETAILS := State(Some([AFTER]), false, None, 2, map[1 := ForSeason(3)], NO_SEASON.(
    latestSeasonRequestId := 3, selectedSeasonId := Some("season-1"), shown := Some(BEFORE),
    seasonEpisodes := ["old 1"], chunks := [Chunk(BEFORE, 1, ["old 1"])], hasMoreSeasonEpisodes := true))

  const MIXED := NEW_DETAILS.(season := NO_SEASON.(
    latestSeasonRequestId := 4, selectedSeasonId := Some("season-1"), shown := Some(AFTER),
    seasonEpisodes := ["old 1", "new 2"], currentSeasonPage := 2,
    chunks := [Chunk(BEFORE, 1, ["old 1"]), Chunk(AFTER, 2, ["new 2"])]))

  const TO_FALLBACK := [OpenEntry, DetailsSettled(1, Ok([BEFORE]), None), OpenEntry, Fallback(1)]
  const TO_DETAILS := [PageSettled(3, Ok(SeasonPage(["old 1"], 1, true))), DetailsSettled(2, Ok([AFTER]), None)]
  const TO_MIX := [UserLoadsMore, PageSettled(4, Ok(SeasonPage(["new 2"], 2, false)))]

  lemma {:induction false} PathConcat(s: State, xs: seq<Step>, m: State, ys: seq<Step>, t: State)
    requires Path(s, xs, m) && Path(m, ys, t)
    ensures Path(s, xs + ys, t)
    decreases |xs|
  {
    if xs == [] {
      assert xs + ys == ys;
    } else {
      PathConcat(Apply(s, xs[0]), xs[1..], m, ys, t);
      assert (xs + ys)[1..] == xs[1..] + ys;
    }
  }

  lemma TwoSteps(s: State, x: Step, m: State, y: Step, t: State)
    requires Enabled(s, x) && Apply(s, x) == m && Enabled(m, y) && Apply(m, y) == t
    ensures Path(s, [x, y], t)
  {
    assert [x, y][1..] == [y] && [y][1..] == [];
    assert Path(t, [], t) && Path(m, [y], t);
  }

  lemma ReachFallback()
    ensures Path(INITIAL, TO_FALLBACK, FALLEN_BACK)
  {
    var t1 := State(None, true, None, 1, map[1 := ForDetails], NO_SEASON.(latestSeasonRequestId := 1));
    var t2 := State(Some([BEFORE]), true, None, 1, map[1 := ForRefusedSelection([BEFORE])], t1.season);
    var t3 := State(None, true, None, 2, map[1 := ForRefusedSelection([BEFORE]), 2 := ForDetails],
                    NO_SEASON.(latestSeasonRequestId := 2));
    TwoSteps(INITIAL, OpenEntry, t1, DetailsSettled(1, Ok([BEFORE]), None), t2);
    TwoSteps(t2, OpenEntry, t3, Fallback(1), FALLEN_BACK);
    PathConcat(INITIAL, TO_FALLBACK[..2], t2, TO_FALLBACK[2..], FALLEN_BACK);
  }

  lemma ReachMix()
    ensures Path(FALLEN_BACK, TO_DETAILS, NEW_DETAILS) && Path(NEW_DETAILS, TO_MIX, MIXED)
  {
    var t5 := FALLEN_BACK.(season := NEW_DETAILS.season);
    TwoSteps(FALLEN_BACK, TO_DETAILS[0], t5, TO_DETAILS[1], NEW_DETAILS);
    assert SelectedSeason(NEW_DETAILS) == Some(AFTER);
    var t7 := NEW_DETAILS.(season := NEW_DETAILS.season.(latestSeasonRequestId := 4, shown := Some(AFTER),
                           isSeasonLoadingMore := true, seasonCalls := map[4 := SeasonCall(AFTER, 2, true)]));
    TwoSteps(NEW_DETAILS, TO_MIX[0], t7, TO_MIX[1], MIXED);
  }

  /**
   Opening another entry between a refused selection and its continuation can
   end with page 1 of the old entry's season followed by page 2 of the new one's,
   although the backend echoes every page number.
   */
  lemma StaleFallbackMixesSeasons()
    ensures Path(INITIAL, TO_FALLBACK + TO_DETAILS + TO_MIX, MIXED)
    ensures SelectedSeason(MIXED) == Some(AFTER)
    ensures MIXED.season.seasonEpisodes == Concat(MIXED.season.chunks) && !PagesOf(AFTER, MIXED.season.chunks)
  {
    ReachFallback();
    ReachMix();
    PathConcat(INITIAL, TO_FALLBACK, FALLEN_BACK, TO_DETAILS, NEW_DETAILS);
    PathConcat(INITIAL, TO_FALLBACK + TO_DETAILS, NEW_DETAILS, TO_MIX, MIXED);
    assert MIXED.season.chunks[..1] == [Chunk(BEFORE, 1, ["old 1"])];
    assert Concat(MIXED.season.chunks[..1]) == ["old 1"] by {
      assert MIXED.season.chunks[..1][..0] == [];
    }
  }

  // --- The controller ------------------------------------------------------

  class EntryDetails {
    var details: Option<seq<Season>>
    var isLoading: bool
    var errorMessage: Option<string>
    var seasonEpisodes: seq<Episode>
    var selectedSeasonId: Option<string>
    var isSeasonLoading: bool
    var isSeasonLoadingMore: bool
    var seasonErrorMessage: Option<string>
    var currentSeasonPage: int
    var hasMoreSeasonEpisodes: bool
    var latestRequestId: nat
    var latestSeasonRequestId: nat
    /** Suspended continuations with their captured locals. */
    var entries: map<nat, EntryWait>
    var seasonCalls: map<nat, SeasonCall>
    ghost var shown: Option<Season>
    ghost var chunks: seq<Chunk>

    ghost function SeasonView(): SeasonState
      reads this
    {
      SeasonState(seasonEpisodes, selectedSeasonId, isSeasonLoading, isSeasonLoadingMore, seasonErrorMessage,
                  currentSeasonPage, hasMoreSeasonEpisodes, latestSeasonRequestId, seasonCalls, shown, chunks)
    }

    ghost function View(): State
      reads this
    {
      State(details, isLoading, errorMessage, latestRequestId, entries, SeasonView())
    }

    constructor ()
      ensures View() == INITIAL
    {
      details, isLoading, errorMessage := None, false, None;
      seasonEpisodes, selectedSeasonId, isSeasonLoading, isSeasonLoadingMore := [], None, false, false;
      seasonErrorMessage, currentSeasonPage, hasMoreSeasonEpisodes := None, 1, false;
      latestRequestId, latestSeasonRequestId, entries, seasonCalls := 0, 0, map[], map[];
      shown, chunks := None, [];
    }

    method ResetSeason()
      modifies `seasonEpisodes, `selectedSeasonId, `isSeasonLoading, `isSeasonLoadingMore, `seasonErrorMessage,
               `currentSeasonPage, `hasMoreSeasonEpisodes, `latestSeasonRequestId, `seasonCalls, `shown, `chunks
      ensures SeasonView() == ResetSeasonState(old(SeasonView()))
    {
      latestSeasonRequestId := latestSeasonRequestId + 1;
      selectedSeasonId := None;
      seasonEpisodes := [];
      seasonErrorMessage := None;
      isSeasonLoading := false;
      isSeasonLoadingMore := false;
      currentSeasonPage := 1;
      hasMoreSeasonEpisodes := false;
      shown, chunks := None, [];
    }

    /** The head of `loadSeasonPage`: a new request for this season. */
    method StartSeasonRequest(season: Season, append: bool)
      modifies `seasonEpisodes, `selectedSeasonId, `isSeasonLoading, `isSeasonLoadingMore, `seasonErrorMessage,
               `currentSeasonPage, `hasMoreSeasonEpisodes, `latestSeasonRequestId, `shown, `chunks
      ensures SeasonView() == OpenSeasonPage(old(SeasonView()), season, append)
    {
      latestSeasonRequestId := latestSeasonRequestId + 1;
      selectedSeasonId := Some(season.id);
      seasonErrorMessage := None;
      shown := Some(season);
      if append {
        isSeasonLoadingMore := true;
      } else {
        seasonEpisodes := [];
        isSeasonLoading := true;
        isSeasonLoadingMore := false;
        currentSeasonPage := 1;
        hasMoreSeasonEpisodes := false;
        chunks := [];
      }
    }

    method LoadSeasonPage(season: Season, page: int, append: bool)
      modifies `seasonEpisodes, `selectedSeasonId, `isSeasonLoading, `isSeasonLoadingMore, `seasonErrorMessage,
               `currentSeasonPage, `hasMoreSeasonEpisodes, `latestSeasonRequestId, `seasonCalls, `shown, `chunks
      ensures SeasonView() == BeginSeasonPage(old(SeasonView()), season, page, append)
    {
      StartSeasonRequest(season, append);
      if |season.episodes| > 0 {
        seasonEpisodes := season.episodes;
        currentSeasonPage := 1;
        hasMoreSeasonEpisodes := false;
        isSeasonLoading := false;
        isSeasonLoadingMore := false;
        chunks := [];
        return;
      }
      if !Truthy(season.link) {
        seasonEpisodes := [];
        isSeasonLoading := false;
        isSeasonLoadingMore := false;
        chunks := [];
        return;
      }
      seasonCalls := seasonCalls[latestSeasonRequestId := SeasonCall(season, page, append)];
    }

    method ResumeSeasonPage(request: nat, result: Result<SeasonPage, string>)
      requires request in seasonCalls
      modifies `seasonEpisodes, `selectedSeasonId, `isSeasonLoading, `isSeasonLoadingMore, `seasonErrorMessage,
               `currentSeasonPage, `hasMoreSeasonEpisodes, `latestSeasonRequestId, `seasonCalls, `shown, `chunks
      ensures SeasonView() == FinishSeasonPage(old(SeasonView()), request, result)
    {
      var call := seasonCalls[request];
      seasonCalls := seasonCalls - {request};
      if request != latestSeasonRequestId {
        return;
      }
      match result {
      case Ok(nextPage) =>
        seasonEpisodes := if call.append then seasonEpisodes + nextPage.episodes else nextPage.episodes;
        currentSeasonPage := nextPage.currentPage;
        hasMoreSeasonEpisodes := nextPage.haveMore;
        chunks := (if call.append then chunks else []) + [Chunk(call.season, call.page, nextPage.episodes)];
      case Err(message) =>
        if !call.append {
          seasonEpisodes := [];
          chunks := [];
        }
        seasonErrorMessage := Some(message);
      }
      if call.append {
        isSeasonLoadingMore := false;
      } else {
        isSeasonLoading := false;
      }
    }

    method HandleSeasonSelect(id: string)
      modifies this
      ensures View() == SelectSeason(old(View()), id)
    {
      var season := if details.None? then None else FindSeason(details.value, id);
      if season.Some? {
        LoadSeasonPage(season.value, 1, false);
      }
    }

    method HandleLoadMoreSeasonEpisodes()
      modifies this
      ensures View() == LoadMore(old(View()))
    {
      var season := if details.None? || selectedSeasonId.None? then None
                    else FindSeason(details.value, selectedSeasonId.value);
      if season.None? || !Truthy(season.value.link) || !hasMoreSeasonEpisodes || isSeasonLoadingMore {
        return;
      }
      LoadSeasonPage(season.value, currentSeasonPage + 1, true);
    }

    method LoadEntryDetails()
      modifies this
      ensures View() == BeginEntry(old(View()))
    {
      latestRequestId := latestRequestId + 1;
      isLoading := true;
      errorMessage := None;
      details := None;
      entries := entries[latestRequestId := ForDetails];
      ResetSeason();
    }

    method Close(request: nat)
      modifies `entries, `isLoading
      ensures View() == CloseEntry(old(View()), request)
    {
      entries := entries - {request};
      if request == latestRequestId {
        isLoading := false;
      }
    }

    method ResumeWithDetails(request: nat, result: Result<seq<Season>, string>, preferred: Option<string>)
      modifies this
      ensures View() == FinishDetails(old(View()), request, result, preferred)
    {
      hide FindSeason, BeginSeasonFor;
      if request != latestRequestId {
        Close(request);
        return;
      }
      match result
      case Err(message) =>
        details := None;
        errorMessage := Some(message);
        Close(request);
      case Ok(nextDetails) =>
        details := Some(nextDetails);
        if |nextDetails| == 0 || Truthy(selectedSeasonId) {
          Close(request);
          return;
        }
        RestoreSelection(request, nextDetails, preferred);
    }

    /** The preferred season of the new details is loaded, or its selection is refused. */
    method RestoreSelection(request: nat, seasons: seq<Season>, preferred: Option<string>)
      modifies `seasonEpisodes, `selectedSeasonId, `isSeasonLoading, `isSeasonLoadingMore, `seasonErrorMessage,
               `currentSeasonPage, `hasMoreSeasonEpisodes, `latestSeasonRequestId, `seasonCalls, `entries, `shown, `chunks
      ensures var restored := if Truthy(preferred) then FindSeason(seasons, preferred.value) else None;
              View() == if restored.Some? then BeginSeasonFor(old(View()), request, restored.value)
                        else old(View()).(entries := old(entries)[request := ForRefusedSelection(seasons)])
    {
      hide FindSeason, BeginSeasonPage;
      var season := if Truthy(preferred) then FindSeason(seasons, preferred.value) else None;
      if season.Some? {
        LoadSeasonPage(season.value, 1, false);
        entries := entries[request := ForSeason(latestSeasonRequestId)];
      } else {
        entries := entries[request := ForRefusedSelection(seasons)];
      }
    }

    method ResumeAfterRefusedSelection(request: nat)
      requires request in entries && entries[request].ForRefusedSelection?
      modifies this
      ensures View() == FallBackToFirst(old(View()), request)
    {
      var seasons := entries[request].seasons;
      if |seasons| > 0 && (|seasons[0].episodes| > 0 || Truthy(seasons[0].link)) {
        LoadSeasonPage(seasons[0], 1, false);
        entries := entries[request := ForSeason(latestSeasonRequestId)];
      } else {
        Close(request);
      }
    }
  }
}
