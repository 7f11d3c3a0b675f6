/**
 The mobile app's local stokvel service: an in-memory list of stokvel cards
 and of open votes. Casting a vote is a one-shot per vote, classified as a
 yes when the chosen option mentions "yes" or "approve"; creating a stokvel
 appends a card filled with fixed defaults. The millisecond clock that
 supplies the new card's id and the ISO time of creation are parameters.
 */
module StokvelService {
  import opened Js
  import opened Text

  datatype Vote = Vote(
    id: int,
    title: string,
    stokvel: string,
    description: string,
    kind: string,
    status: string,
    endDate: string,
    totalVotes: int,
    requiredVotes: int,
    hasVoted: bool,
    yesVotes: int,
    noVotes: int,
    options: seq<string>)

  /** A stokvel as the app's cards show it; `members` is a head count. */
  datatype Card = Card(
    id: int,
    name: string,
    kind: string,
    balance: int,
    myContribution: int,
    members: int,
    nextPayout: string,
    contributionAmount: int,
    status: string,
    progress: int,
    description: Option<string>,
    createdBy: Option<string>,
    createdDate: Option<string>)

  datatype Service = Service(stokvels: seq<Card>, votes: seq<Vote>)

  const Initial: Service := Service(
    [Card(1, "Family Christmas Fund", "Savings", 45000, 15000, 8, "2024-12-15", 2500, "active", 75,
          Some("Annual Christmas savings for family celebrations"), Some("user123"), Some("2024-01-01")),
     Card(2, "Grocery Rotation", "Rotational", 12000, 3000, 4, "2024-02-01", 3000, "active", 100,
          Some("Monthly grocery fund rotation among family members"), Some("user456"), Some("2023-09-01"))],
    [Vote(1, "Property Investment Decision", "Property Investment Club",
          "Should we invest R180,000 in the Sandton apartment complex project?", "investment", "active",
          "2024-02-10", 8, 12, false, 6, 2, ["Yes, proceed with investment", "No, keep funds in savings"])])

  // ---------------------------------------------------------------------------
  // Voting

  /** Position of the first vote with id `id`. */
  function FindVote(votes: seq<Vote>, id: int): (r: Option<nat>)
    ensures r.None? <==> forall i :: 0 <= i < |votes| ==> votes[i].id != id
    ensures r.Some? ==> r.value < |votes| && votes[r.value].id == id
    ensures r.Some? ==> forall i :: 0 <= i < r.value ==> votes[i].id != id
  {
    FindIndex(votes, (v: Vote) => v.id == id)
  }

  /** An option counts as a yes when its lower-cased text includes "yes" or "approve". */
  predicate IsYes(option: string) {
    Contains(ToLower(option), "yes") || Contains(ToLower(option), "approve")
  }

  /** The ballot a vote carries after one more cast. */
  function Tallied(v: Vote, option: string): Vote {
    if IsYes(option)
    then v.(yesVotes := v.yesVotes + 1, totalVotes := v.totalVotes + 1, hasVoted := true)
    else v.(noVotes := v.noVotes + 1, totalVotes := v.totalVotes + 1, hasVoted := true)
  }

  /** `castVote`: refused for an unknown vote or one already voted on; otherwise one tally goes up. */
  function CastVote(votes: seq<Vote>, voteId: int, option: string): (out: (seq<Vote>, bool))
    ensures !out.1 ==> out.0 == votes
    ensures out.1 <==> FindVote(votes, voteId).Some? && !votes[FindVote(votes, voteId).value].hasVoted
    ensures |out.0| == |votes|
    ensures forall j :: 0 <= j < |votes| && votes[j].id != voteId ==> out.0[j] == votes[j]
    ensures out.1 ==>
      var i := FindVote(votes, voteId).value;
      var v, v' := votes[i], out.0[i];
      && (forall j :: 0 <= j < |votes| && j != i ==> out.0[j] == votes[j])
      && v'.hasVoted
      && v'.totalVotes == v.totalVotes + 1
      && v'.yesVotes == v.yesVotes + (if IsYes(option) then 1 else 0)
      && v'.noVotes == v.noVotes + (if IsYes(option) then 0 else 1)
      && v' == v.(yesVotes := v'.yesVotes, noVotes := v'.noVotes, totalVotes := v'.totalVotes, hasVoted := true)
  {
    match FindVote(votes, voteId)
    case None => (votes, false)
    case Some(i) =>
      if votes[i].hasVoted then (votes, false)
      else (votes[i := Tallied(votes[i], option)], true)
  }

  /** `yesVotes + noVotes - totalVotes` of a vote: a cast moves both sides by one. */
  function Discrepancy(v: Vote): int {
    v.yesVotes + v.noVotes - v.totalVotes
  }

  /** Every vote keeps its discrepancy through a cast. */
  lemma CastKeepsDiscrepancy(votes: seq<Vote>, voteId: int, option: string)
    ensures forall j :: 0 <= j < |votes| ==> Discrepancy(CastVote(votes, voteId, option).0[j]) == Discrepancy(votes[j])
  {
  }

  /** After a successful cast, any further cast on that vote is refused and changes nothing. */
  lemma CastIsOneShot(votes: seq<Vote>, voteId: int, option: string, again: string)
    requires CastVote(votes, voteId, option).1
    ensures var votes' := CastVote(votes, voteId, option).0;
      CastVote(votes', voteId, again) == (votes', false)
  {
    var votes' := CastVote(votes, voteId, option).0;
    var i := FindVote(votes, voteId).value;
    assert votes'[i].id == voteId;
    assert FindVote(votes', voteId) == Some(i);
  }

  /** The tally a cast raises: yes exactly when some window of the lower-cased option reads "yes" or "approve". */
  lemma YesClassification(option: string)
    ensures IsYes(option) <==> Occurs(ToLower(option), "yes") || Occurs(ToLower(option), "approve")
  {
    ContainsIffOccurs(ToLower(option), "yes");
    ContainsIffOccurs(ToLower(option), "approve");
  }

  /** An option that opens with "yes", in any case, is a yes ("Yes, proceed with investment"). */
  lemma LeadingYesIsYes(option: string)
    requires |option| >= 3
    requires LowerChar(option[0]) == 'y' && LowerChar(option[1]) == 'e' && LowerChar(option[2]) == 's'
    ensures IsYes(option)
  {
    var lower := ToLower(option);
    assert lower[..3] == "yes";
    assert StartsWith(lower, "yes");
  }

  /** An option with no letter y and no letter a, in any case, is a no ("No, keep funds in savings"). */
  lemma WithoutYOrAIsNo(option: string)
    requires forall k :: 0 <= k < |option| ==> LowerChar(option[k]) != 'y' && LowerChar(option[k]) != 'a'
    ensures !IsYes(option)
  {
    var lower := ToLower(option);
    if Contains(lower, "yes") {
      ContainsFirstChar(lower, "yes");
    }
    if Contains(lower, "approve") {
      ContainsFirstChar(lower, "approve");
    }
  }

  // ---------------------------------------------------------------------------
  // Creating a stokvel

  /** The fields a caller may supply; each may be absent. */
  datatype Draft = Draft(
    name: Option<string>,
    kind: Option<string>,
    nextPayout: Option<string>,
    contributionAmount: Option<int>,
    description: Option<string>)

  /** `createStokvel`: appends one card, with absent (or empty, or zero) fields replaced by defaults. */
  function CreateStokvel(svc: Service, draft: Draft, nowMs: int, nowIso: string): (out: (Service, Card))
    ensures out.0.stokvels == svc.stokvels + [out.1]
    ensures out.0.votes == svc.votes
    ensures var c := out.1;
      && c.id == nowMs
      && c.balance == 0 && c.myContribution == 0 && c.members == 1 && c.progress == 0
      && c.status == "active"
      && c.createdBy == Some("currentUser") && c.createdDate == Some(nowIso)
      && c.description == draft.description
      && (StrTruthy(draft.name) ==> c.name == draft.name.value)
      && (!StrTruthy(draft.name) ==> c.name == "")
      && (StrTruthy(draft.kind) ==> c.kind == draft.kind.value)
      && (!StrTruthy(draft.kind) ==> c.kind == "Savings")
      && (StrTruthy(draft.nextPayout) ==> c.nextPayout == draft.nextPayout.value)
      && (!StrTruthy(draft.nextPayout) ==> c.nextPayout == "")
      && (IntTruthy(draft.contributionAmount) ==> c.contributionAmount == draft.contributionAmount.value)
      && (!IntTruthy(draft.contributionAmount) ==> c.contributionAmount == 0)
  {
    var c := Card(nowMs, StrOr(draft.name, ""), StrOr(draft.kind, "Savings"), 0, 0, 1,
                  StrOr(draft.nextPayout, ""), IntOr(draft.contributionAmount, 0), "active", 0,
                  draft.description, Some("currentUser"), Some(nowIso));
    (svc.(stokvels := svc.stokvels + [c]), c)
  }

  /** Casting a vote leaves the stokvel cards alone, and creating a card leaves every vote alone. */
  lemma OperationsAreIndependent(svc: Service, draft: Draft, nowMs: int, nowIso: string, voteId: int, option: string)
    ensures var svc' := CreateStokvel(svc, draft, nowMs, nowIso).0;
      CastVote(svc'.votes, voteId, option) == CastVote(svc.votes, voteId, option)
    ensures var svc' := CreateStokvel(svc, draft, nowMs, nowIso).0;
      svc'.stokvels[..|svc.stokvels|] == svc.stokvels
  {
    var svc' := CreateStokvel(svc, draft, nowMs, nowIso).0;
    assert svc'.stokvels[..|svc.stokvels|] == svc.stokvels;
  }
}
