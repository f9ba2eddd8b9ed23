/** The next-departures endpoint for one RER station (api/Passage_Palaiseau.js):
    keep the upcoming visits bound for one of two destinations, compute the
    whole minutes left, and answer with the four earliest. The upstream
    stop-monitoring service is a function from the request to its reply;
    arrival times are integer milliseconds. */
module Transit {
  import opened Common
  import opened Strings
  import opened Sorting

  const StopId: string := "STIF:StopArea:SP:63175:"

  /** destinationsFiltre. */
  const Destinations: seq<string> := ["Aéroport Charles de Gaulle 2 TGV", "Mitry - Claye"]

  const MaxPassages: nat := 4

  const MinuteMs: nat := 60000

  /** `ExpectedArrivalTime`: missing or empty, present but not a date, or a time. */
  datatype Arrival = Missing | Unparsable | At(ms: int)

  /** A `MonitoredStopVisit`, reduced to the destination name and the arrival. */
  datatype Visit = Visit(destination: Option<string>, arrival: Arrival)

  /** An element of passagesFiltres. */
  datatype Candidate = Candidate(destination: string, attente: string, eta: int)

  /** An element of the answer: destination and minutes to wait, as text. */
  datatype Passage = Passage(destination: string, attente: string)

  /** The visits kept: a time that is strictly after `now`, bound for one of
      the listed destinations. An unparsable time compares false. */
  predicate Qualifies(v: Visit, now: int)
  {
    v.arrival.At? && v.destination.Some? && v.destination.value in Destinations && v.arrival.ms > now
  }

  /** `Math.floor((eta - now) / 60000)`. */
  function WaitMinutes(eta: int, now: int): nat
    requires eta > now
  {
    (eta - now) / MinuteMs
  }

  function CandidateOf(v: Visit, now: int): Candidate
    requires Qualifies(v, now)
  {
    Candidate(v.destination.value, NatToString(WaitMinutes(v.arrival.ms, now)), v.arrival.ms)
  }

  /** The candidates of the visits, in visit order. */
  function Qualifying(visits: seq<Visit>, now: int): seq<Candidate>
    decreases |visits|
  {
    if visits == [] then []
    else
      var v := visits[|visits| - 1];
      Qualifying(visits[..|visits| - 1], now) + (if Qualifies(v, now) then [CandidateOf(v, now)] else [])
  }

  /** The `for` loop over the visits. */
  method FilterVisits(visits: seq<Visit>, now: int) returns (passagesFiltres: seq<Candidate>)
    ensures passagesFiltres == Qualifying(visits, now)
  {
    passagesFiltres := [];
    for i := 0 to |visits|
      invariant passagesFiltres == Qualifying(visits[..i], now)
    {
      assert visits[..i + 1][..i] == visits[..i];
      var visite := visits[i];
      var destination := visite.destination;
      var etaStr := visite.arrival;
      if etaStr != Missing && destination.Some? && destination.value in Destinations {
        if etaStr.At? && etaStr.ms > now {
          var attenteMinutes := (etaStr.ms - now) / MinuteMs;
          passagesFiltres := passagesFiltres + [Candidate(destination.value, NatToString(attenteMinutes), etaStr.ms)];
        }
      }
    }
    assert visits[..|visits|] == visits;
  }

  /** A candidate is kept exactly when a visit qualifies for it. */
  lemma {:induction false} QualifyingMembers(visits: seq<Visit>, now: int)
    ensures forall c :: c in Qualifying(visits, now) <==>
      exists i :: 0 <= i < |visits| && Qualifies(visits[i], now) && c == CandidateOf(visits[i], now)
    decreases |visits|
  {
    if visits != [] {
      var init := visits[..|visits| - 1];
      QualifyingMembers(init, now);
      assert forall i :: 0 <= i < |init| ==> init[i] == visits[i];
    }
  }

  /** A kept candidate is bound for a listed destination, arrives after
      `now`, and waits the whole number of minutes before its arrival. */
  lemma CandidateFacts(v: Visit, now: int)
    requires Qualifies(v, now)
    ensures var c := CandidateOf(v, now);
      var m := (c.eta - now) / MinuteMs;
      c.destination in Destinations && c.eta > now && m >= 0
      && c.attente == NatToString(m) && m * MinuteMs <= c.eta - now < (m + 1) * MinuteMs
  {
  }

  /** The waiting time of a passage reads back as the number of minutes. */
  lemma WaitReadsBack(c: Candidate, m: nat)
    requires c.attente == NatToString(m)
    ensures ParseInt(c.attente) == Some(m)
  {
    ParseIntOfNatToString(m);
  }

  function Eta(c: Candidate): int { c.eta }

  /** `.sort((a, b) => a.eta - b.eta).slice(0, 4)`. */
  function Chosen(kept: seq<Candidate>): seq<Candidate>
  {
    SliceTo(SortBy(kept, Eta), MaxPassages)
  }

  function Strip(c: Candidate): Passage { Passage(c.destination, c.attente) }

  /** The passages of the answer. */
  function NextPassages(kept: seq<Candidate>): (r: seq<Passage>)
    ensures |r| == Min(MaxPassages, |kept|)
  {
    var chosen := Chosen(kept);
    seq(|chosen|, i requires 0 <= i < |chosen| => Strip(chosen[i]))
  }

  /** The chosen candidates come in order of arrival, at most four of them. */
  lemma ChosenInArrivalOrder(kept: seq<Candidate>)
    ensures var chosen := Chosen(kept);
      |chosen| == Min(MaxPassages, |kept|)
      && (forall i, j :: 0 <= i < j < |chosen| ==> chosen[i].eta <= chosen[j].eta)
      && (forall i :: 0 <= i < |chosen| ==> NextPassages(kept)[i] == Strip(chosen[i]))
  {
    var sorted := SortBy(kept, Eta);
    var chosen := Chosen(kept);
    assert chosen == sorted[..|chosen|];
    assert forall i, j :: 0 <= i < j < |chosen| ==> Eta(sorted[i]) <= Eta(sorted[j]);
  }

  /** The chosen candidates are the earliest: drawn from the kept ones, and
      none left out arrives before one chosen. */
  lemma ChosenAreTheEarliest(kept: seq<Candidate>)
    ensures var chosen := Chosen(kept);
      multiset(chosen) <= multiset(kept)
      && (forall y: Candidate, x: Candidate :: y in multiset(kept) - multiset(chosen) && x in chosen ==> x.eta <= y.eta)
  {
    var chosen := Chosen(kept);
    assert chosen == SortBy(kept, Eta)[..|chosen|];
    SortedTakeIsLeast(kept, Eta, |chosen|);
  }

  // ---------------------------------------------------------------------
  // The handler

  /** The request sent to the stop-monitoring service: the stop and the key. */
  datatype IdfmRequest = IdfmRequest(stop: string, apiKey: string)

  /** The reply: a body with its visit list (`None` when any step of the path
      to it is missing), a non-2xx status, or a transport or parse failure. */
  datatype IdfmReply = Received(visits: Option<seq<Visit>>) | HttpFailure(statusText: string) | Unreachable

  datatype TransitResponse =
    | MissingKey
    | ServerError
    | Passages(passages: seq<Passage>)

  function StatusCode(r: TransitResponse): nat
  {
    if r.Passages? then 200 else 500
  }

  /** The answer for an API key that is set. */
  function Answer(reply: IdfmReply, now: int): TransitResponse
  {
    match reply
    case Received(visits) => Passages(NextPassages(Qualifying(visits.GetOr([]), now)))
    case _ => ServerError
  }

  /** `handler(request, response)` with the key `apiKey` at time `now`.
      Without a key the answer is 500 and the service is not asked. */
  method Handler(apiKey: Option<string>, server: IdfmRequest -> IdfmReply, now: int) returns (response: TransitResponse)
    ensures apiKey.None? || apiKey.value == "" ==> response == MissingKey
    ensures apiKey.Some? && apiKey.value != "" ==> response == Answer(server(IdfmRequest(StopId, apiKey.value)), now)
  {
    if apiKey.None? || apiKey.value == "" {
      return MissingKey;
    }
    var apiResponse := server(IdfmRequest(StopId, apiKey.value));
    if !apiResponse.Received? {
      return ServerError;
    }
    var visites := apiResponse.visits.GetOr([]);
    var passagesFiltres := FilterVisits(visites, now);
    var passagesFormates := NextPassages(passagesFiltres);
    return Passages(passagesFormates);
  }

  /** A reply without a visit list gives an empty answer. */
  lemma NoVisitsNoPassages(now: int)
    ensures Answer(Received(None), now) == Passages([])
  {
  }
}
