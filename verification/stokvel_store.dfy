/**
 The backend's stokvel collection and the five operations its routes perform
 on it: create, join, contribute, list the caller's stokvels, and show one
 stokvel's details. The collection is the ordered list of stokvels; every
 operation is a transition returning the new list and the response.
 Request validation is a predicate per route; the caller is the
 authenticated user; the clock's ISO strings, the transaction id and the
 random invite code are parameters.
 */
module StokvelStore {
  import opened Js
  import opened Numeric

  datatype Member = Member(
    id: nat, name: string, phoneNumber: string, contributions: int, status: string, joinedAt: Option<string>)

  datatype Rules = Rules(maxMembers: int, minContribution: int, penaltyRate: real, allowEarlyWithdrawal: bool)

  datatype Stokvel = Stokvel(
    id: int,
    name: string,
    kind: string,
    description: string,
    balance: int,
    targetAmount: int,
    contributionAmount: int,
    frequency: string,
    members: seq<Member>,
    createdBy: nat,
    createdAt: string,
    endDate: string,
    status: string,
    rules: Rules,
    inviteCode: Option<string>)

  /** The authenticated caller: the id and phone number carried by the token. */
  datatype Caller = Caller(id: nat, phoneNumber: string)

  /** The collection as the server starts with it: one demonstration stokvel, without an invite code. */
  const Seed: seq<Stokvel> := [
    Stokvel(1, "Family Christmas Fund", "Savings", "Annual Christmas savings for family celebrations",
            45000, 60000, 2500, "monthly",
            [Member(1, "Thabo Mokoena", "+27123456789", 15000, "active", None),
             Member(2, "Nomsa Dlamini", "+27123456790", 12500, "active", None)],
            1, "2024-01-01", "2024-12-15", "active", Rules(10, 2500, 0.05, false), None)
  ]

  /** Why a request was refused: the messages of the validators that failed (`errors.array()`), or one fixed message. */
  datatype StoreError =
    | ValidationFailed(errors: seq<string>)
    | NotFound
    | InvalidInviteCode
    | Full
    | AlreadyMember
    | NotMember
    | AccessDenied

  function Status(e: StoreError): int {
    match e
    case ValidationFailed(_) => 400
    case NotFound => 404
    case InvalidInviteCode => 400
    case Full => 400
    case AlreadyMember => 400
    case NotMember => 403
    case AccessDenied => 403
  }

  /** The `message` of a refusal; a validation failure sends its list of messages instead. */
  function Message(e: StoreError): string
    requires !e.ValidationFailed?
  {
    match e
    case NotFound => "Stokvel not found"
    case InvalidInviteCode => "Invalid invite code"
    case Full => "Stokvel is full"
    case AlreadyMember => "You are already a member of this stokvel"
    case NotMember => "You are not a member of this stokvel"
    case AccessDenied => "Access denied"
  }

  datatype Result<T> = Ok(value: T) | Err(error: StoreError)

  // ---------------------------------------------------------------------------
  // Lookups

  /** Position of the first stokvel with id `id` (`stokvels.find(s => s.id === id)`). */
  function FindStokvel(store: seq<Stokvel>, id: int): (r: Option<nat>)
    ensures r.None? <==> forall i :: 0 <= i < |store| ==> store[i].id != id
    ensures r.Some? ==> r.value < |store| && store[r.value].id == id
    ensures r.Some? ==> forall i :: 0 <= i < r.value ==> store[i].id != id
  {
    FindIndex(store, (s: Stokvel) => s.id == id)
  }

  /** Position of the first member with id `userId` (`members.find(m => m.id === userId)`). */
  function FindMember(members: seq<Member>, userId: nat): (r: Option<nat>)
    ensures r.None? <==> forall i :: 0 <= i < |members| ==> members[i].id != userId
    ensures r.Some? ==> r.value < |members| && members[r.value].id == userId
    ensures r.Some? ==> forall i :: 0 <= i < r.value ==> members[i].id != userId
  {
    FindIndex(members, (m: Member) => m.id == userId)
  }

  predicate IsMember(s: Stokvel, userId: nat) {
    FindMember(s.members, userId).Some?
  }

  /** The access rule of the list and details routes: a member, or the creator. */
  predicate CanSee(s: Stokvel, userId: nat) {
    IsMember(s, userId) || s.createdBy == userId
  }

  // ---------------------------------------------------------------------------
  // Invariants

  function SumContributions(members: seq<Member>): int {
    if members == [] then 0 else members[0].contributions + SumContributions(members[1..])
  }

  /** What the balance holds beyond the members' recorded contributions (17500 in the seed data). */
  function Surplus(s: Stokvel): int {
    s.balance - SumContributions(s.members)
  }

  ghost predicate MemberIdsUnique(members: seq<Member>) {
    forall i, j :: 0 <= i < j < |members| ==> members[i].id != members[j].id
  }

  ghost predicate WellFormedStokvel(s: Stokvel) {
    MemberIdsUnique(s.members) && |s.members| <= s.rules.maxMembers
  }

  /** Ids follow positions (the route assigns `length + 1`), and every stokvel is well formed. */
  ghost predicate WellFormedStore(store: seq<Stokvel>) {
    && (forall i :: 0 <= i < |store| ==> store[i].id == i + 1)
    && (forall i :: 0 <= i < |store| ==> WellFormedStokvel(store[i]))
  }

  lemma SeedWellFormed()
    ensures WellFormedStore(Seed)
    ensures Surplus(Seed[0]) == 17500
  {
  }

  /** With ids following positions, the stokvel with id `id` is the one at position `id - 1`. */
  lemma FindInWellFormed(store: seq<Stokvel>, id: int)
    requires WellFormedStore(store)
    ensures FindStokvel(store, id) == if 1 <= id <= |store| then Some(id - 1) else None
  {
    if 1 <= id <= |store| {
      var r := FindStokvel(store, id);
      assert store[id - 1].id == id;
    }
  }

  // ---------------------------------------------------------------------------
  // Create

  datatype RulesInput = RulesInput(penaltyRate: Option<real>, allowEarlyWithdrawal: Option<bool>)

  datatype CreateRequest = CreateRequest(
    name: string,
    kind: string,
    description: Option<string>,
    contributionAmount: int,
    targetAmount: Option<int>,
    frequency: string,
    maxMembers: int,
    endDate: Option<string>,
    rules: Option<RulesInput>)

  /** The server-side values a creation draws on: the current time, the default end date a year on, and the random invite code. */
  datatype CreateContext = CreateContext(createdAt: string, defaultEndDate: string, inviteCode: string)

  /** The create route's validation chain. */
  predicate ValidCreate(r: CreateRequest) {
    && r.name != ""
    && r.kind in ["Savings", "Rotational", "Investment"]
    && r.frequency in ["weekly", "monthly", "quarterly"]
    && 2 <= r.maxMembers <= 50
  }

  /**
   The messages of the create route's failed validators, in the order the
   chain declares them. The two amount checks (`isNumeric`) cannot fail on
   integer amounts and contribute no message.
   */
  function CreateErrors(r: CreateRequest): (errs: seq<string>)
    ensures errs == [] <==> ValidCreate(r)
    ensures "Stokvel name is required" in errs <==> r.name == ""
    ensures "Invalid stokvel type" in errs <==> r.kind !in ["Savings", "Rotational", "Investment"]
    ensures "Invalid frequency" in errs <==> r.frequency !in ["weekly", "monthly", "quarterly"]
    ensures "Max members must be between 2 and 50" in errs <==> !(2 <= r.maxMembers <= 50)
  {
    var name := Failed(r.name != "", "Stokvel name is required");
    var kind := Failed(r.kind in ["Savings", "Rotational", "Investment"], "Invalid stokvel type");
    var frequency := Failed(r.frequency in ["weekly", "monthly", "quarterly"], "Invalid frequency");
    var maxMembers := Failed(2 <= r.maxMembers <= 50, "Max members must be between 2 and 50");
    assert |"Stokvel name is required"| == 24 && |"Invalid stokvel type"| == 20;
    assert |"Invalid frequency"| == 17 && |"Max members must be between 2 and 50"| == 36;
    name + kind + frequency + maxMembers
  }

  /** `targetAmount || contributionAmount * maxMembers * 12`. */
  function TargetAmount(r: CreateRequest): (t: int)
    ensures IntTruthy(r.targetAmount) ==> t == r.targetAmount.value
    ensures !IntTruthy(r.targetAmount) ==> t == r.contributionAmount * r.maxMembers * 12
  {
    IntOr(r.targetAmount, r.contributionAmount * r.maxMembers * 12)
  }

  /** The rules block: the penalty rate falls back to 0.05 when absent or 0, early withdrawal to false. */
  function RulesOf(r: CreateRequest): (rules: Rules)
    ensures rules.maxMembers == r.maxMembers && rules.minContribution == r.contributionAmount
    ensures r.rules.Some? && RealTruthy(r.rules.value.penaltyRate) ==> rules.penaltyRate == r.rules.value.penaltyRate.value
    ensures !(r.rules.Some? && RealTruthy(r.rules.value.penaltyRate)) ==> rules.penaltyRate == 0.05
    ensures rules.penaltyRate != 0.0
    ensures rules.allowEarlyWithdrawal <==> r.rules.Some? && r.rules.value.allowEarlyWithdrawal == Some(true)
  {
    var rate := RealOr(if r.rules.Some? then r.rules.value.penaltyRate else None, 0.05);
    var early := r.rules.Some? && r.rules.value.allowEarlyWithdrawal.Some? && r.rules.value.allowEarlyWithdrawal.value;
    Rules(r.maxMembers, r.contributionAmount, rate, early)
  }

  /** `POST /stokvels`. */
  function Create(store: seq<Stokvel>, caller: Caller, r: CreateRequest, ctx: CreateContext)
    : (out: (seq<Stokvel>, Result<Stokvel>))
    ensures !ValidCreate(r) ==> out == (store, Err(ValidationFailed(CreateErrors(r))))
    ensures ValidCreate(r) ==> out.1.Ok? && out.0 == store + [out.1.value]
    ensures out.1.Ok? ==>
      var s := out.1.value;
      && s.id == |store| + 1
      && s.balance == 0
      && s.members == [Member(caller.id, "Current User", caller.phoneNumber, 0, "active", None)]
      && s.createdBy == caller.id
      && s.targetAmount == TargetAmount(r)
      && s.rules == RulesOf(r)
      && s.name == r.name && s.kind == r.kind && s.frequency == r.frequency
      && s.contributionAmount == r.contributionAmount
      && s.description == StrOr(r.description, "")
      && s.endDate == StrOr(r.endDate, ctx.defaultEndDate)
      && s.status == "active"
      && s.inviteCode == Some(ctx.inviteCode)
      && s.createdAt == ctx.createdAt
  {
    if !ValidCreate(r) then (store, Err(ValidationFailed(CreateErrors(r))))
    else
      var s := Stokvel(
        |store| + 1, r.name, r.kind, StrOr(r.description, ""), 0, TargetAmount(r), r.contributionAmount,
        r.frequency, [Member(caller.id, "Current User", caller.phoneNumber, 0, "active", None)],
        caller.id, ctx.createdAt, StrOr(r.endDate, ctx.defaultEndDate), "active", RulesOf(r),
        Some(ctx.inviteCode));
      (store + [s], Ok(s))
  }

  /** Creation keeps the store well formed, and the new stokvel starts with nothing beyond its contributions. */
  lemma CreatePreservesWellFormed(store: seq<Stokvel>, caller: Caller, r: CreateRequest, ctx: CreateContext)
    requires WellFormedStore(store)
    ensures WellFormedStore(Create(store, caller, r, ctx).0)
    ensures Create(store, caller, r, ctx).1.Ok? ==> Surplus(Create(store, caller, r, ctx).1.value) == 0
  {
    var (store', res) := Create(store, caller, r, ctx);
    if res.Ok? {
      assert store'[|store|] == res.value;
      var ms := res.value.members;
      assert ms[1..] == [];
      assert SumContributions(ms) == ms[0].contributions + SumContributions(ms[1..]) == 0;
    }
  }

  // ---------------------------------------------------------------------------
  // Join

  /** `POST /stokvels/:id/join`: rejections in the route's order, then the caller is appended as a member. */
  function Join(store: seq<Stokvel>, caller: Caller, stokvelId: int, inviteCode: string, joinedAt: string)
    : (out: (seq<Stokvel>, Result<Stokvel>))
    ensures out.1.Err? ==> out.0 == store
    ensures inviteCode == "" ==> out.1 == Err(ValidationFailed(["Invite code is required"]))
    ensures inviteCode != "" && FindStokvel(store, stokvelId).None? ==> out.1 == Err(NotFound)
    ensures inviteCode != "" && FindStokvel(store, stokvelId).Some? ==>
      var i := FindStokvel(store, stokvelId).value;
      var s := store[i];
      if s.inviteCode != Some(inviteCode) then out.1 == Err(InvalidInviteCode)
      else if |s.members| >= s.rules.maxMembers then out.1 == Err(Full)
      else if IsMember(s, caller.id) then out.1 == Err(AlreadyMember)
      else
        var joined := s.(members := s.members + [Member(caller.id, "New Member", caller.phoneNumber, 0, "active", Some(joinedAt))]);
        out == (store[i := joined], Ok(joined))
  {
    if inviteCode == "" then (store, Err(ValidationFailed(["Invite code is required"])))
    else match FindStokvel(store, stokvelId)
      case None => (store, Err(NotFound))
      case Some(i) =>
        var s := store[i];
        if s.inviteCode != Some(inviteCode) then (store, Err(InvalidInviteCode))
        else if |s.members| >= s.rules.maxMembers then (store, Err(Full))
        else if IsMember(s, caller.id) then (store, Err(AlreadyMember))
        else
          var joined := s.(members := s.members + [Member(caller.id, "New Member", caller.phoneNumber, 0, "active", Some(joinedAt))]);
          (store[i := joined], Ok(joined))
  }

  lemma {:induction false} SumAppend(members: seq<Member>, m: Member)
    ensures SumContributions(members + [m]) == SumContributions(members) + m.contributions
  {
    if members != [] {
      assert (members + [m])[1..] == members[1..] + [m];
      SumAppend(members[1..], m);
    }
  }

  /**
   A successful join adds one member with no contributions: the balance, the
   existing members and every other stokvel are unchanged, and capacity,
   distinct member ids and the surplus are kept.
   */
  lemma JoinPreservesWellFormed(store: seq<Stokvel>, caller: Caller, stokvelId: int, inviteCode: string, joinedAt: string)
    requires WellFormedStore(store)
    ensures var (store', res) := Join(store, caller, stokvelId, inviteCode, joinedAt);
      WellFormedStore(store') && |store'| == |store|
      && (forall i :: 0 <= i < |store| ==>
            && Surplus(store'[i]) == Surplus(store[i])
            && store'[i].balance == store[i].balance
            && store'[i].members[..|store[i].members|] == store[i].members)
  {
    var (store', res) := Join(store, caller, stokvelId, inviteCode, joinedAt);
    if res.Ok? {
      var i := FindStokvel(store, stokvelId).value;
      var s := store[i];
      var m := Member(caller.id, "New Member", caller.phoneNumber, 0, "active", Some(joinedAt));
      SumAppend(s.members, m);
      assert store'[i].members == s.members + [m];
      assert store'[i].members[..|s.members|] == s.members;
    }
  }

  /** After joining, the new member can see the stokvel and finds it among their stokvels. */
  lemma JoinGrantsAccess(store: seq<Stokvel>, caller: Caller, stokvelId: int, inviteCode: string, joinedAt: string)
    requires WellFormedStore(store)
    requires Join(store, caller, stokvelId, inviteCode, joinedAt).1.Ok?
    ensures var store' := Join(store, caller, stokvelId, inviteCode, joinedAt).0;
      GetDetails(store', caller.id, stokvelId).Ok?
  {
    var store' := Join(store, caller, stokvelId, inviteCode, joinedAt).0;
    JoinPreservesWellFormed(store, caller, stokvelId, inviteCode, joinedAt);
    FindInWellFormed(store, stokvelId);
    FindInWellFormed(store', stokvelId);
    var s' := store'[stokvelId - 1];
    assert s'.members[|s'.members| - 1].id == caller.id;
  }

  // ---------------------------------------------------------------------------
  // Contribute

  datatype Transaction = Transaction(
    id: int, stokvelId: int, userId: nat, kind: string, amount: int, paymentReference: string,
    timestamp: string, status: string)

  datatype Receipt = Receipt(transaction: Transaction, newBalance: int, myContribution: int)

  /** `POST /stokvels/:id/contribute`: adds `amount` to the caller's running total and to the balance. */
  function Contribute(store: seq<Stokvel>, caller: Caller, stokvelId: int, amount: int, paymentReference: string,
                      transactionId: int, timestamp: string): (out: (seq<Stokvel>, Result<Receipt>))
    ensures out.1.Err? ==> out.0 == store
    ensures paymentReference == "" ==> out.1 == Err(ValidationFailed(["Payment reference is required"]))
    ensures paymentReference != "" && FindStokvel(store, stokvelId).None? ==> out.1 == Err(NotFound)
    ensures paymentReference != "" && FindStokvel(store, stokvelId).Some? ==>
      (out.1 == Err(NotMember) <==> !IsMember(store[FindStokvel(store, stokvelId).value], caller.id))
    ensures out.1.Ok? <==>
      && paymentReference != ""
      && FindStokvel(store, stokvelId).Some?
      && IsMember(store[FindStokvel(store, stokvelId).value], caller.id)
    ensures out.1.Ok? ==>
      var i := FindStokvel(store, stokvelId).value;
      var s := store[i];
      var k := FindMember(s.members, caller.id).value;
      && |out.0| == |store|
      && (forall j :: 0 <= j < |store| && j != i ==> out.0[j] == store[j])
      && out.0[i].balance == s.balance + amount
      && |out.0[i].members| == |s.members|
      && out.0[i].members[k].contributions == s.members[k].contributions + amount
      && (forall j :: 0 <= j < |s.members| && j != k ==> out.0[i].members[j] == s.members[j])
      && out.0[i] == s.(balance := out.0[i].balance, members := out.0[i].members)
      && out.1.value.newBalance == out.0[i].balance
      && out.1.value.myContribution == out.0[i].members[k].contributions
      && out.1.value.transaction == Transaction(transactionId, stokvelId, caller.id, "contribution", amount,
                                                paymentReference, timestamp, "completed")
  {
    if paymentReference == "" then (store, Err(ValidationFailed(["Payment reference is required"])))
    else match FindStokvel(store, stokvelId)
      case None => (store, Err(NotFound))
      case Some(i) =>
        var s := store[i];
        match FindMember(s.members, caller.id)
        case None => (store, Err(NotMember))
        case Some(k) =>
          var m := s.members[k];
          var m' := m.(contributions := m.contributions + amount);
          var s' := s.(balance := s.balance + amount, members := s.members[k := m']);
          var tx := Transaction(transactionId, stokvelId, caller.id, "contribution", amount,
                                paymentReference, timestamp, "completed");
          (store[i := s'], Ok(Receipt(tx, s'.balance, m'.contributions)))
  }

  lemma {:induction false} SumUpdate(members: seq<Member>, k: nat, m: Member)
    requires k < |members|
    ensures SumContributions(members[k := m]) == SumContributions(members) - members[k].contributions + m.contributions
  {
    if k > 0 {
      assert members[k := m][1..] == members[1..][k - 1 := m];
      SumUpdate(members[1..], k - 1, m);
    }
  }

  /** Contributing keeps every stokvel's surplus (balance minus the members' total) and keeps the store well formed. */
  lemma ContributePreservesSurplus(store: seq<Stokvel>, caller: Caller, stokvelId: int, amount: int,
                                   paymentReference: string, transactionId: int, timestamp: string)
    requires WellFormedStore(store)
    ensures var store' := Contribute(store, caller, stokvelId, amount, paymentReference, transactionId, timestamp).0;
      && WellFormedStore(store') && |store'| == |store|
      && (forall i :: 0 <= i < |store| ==> Surplus(store'[i]) == Surplus(store[i]))
  {
    var (store', res) := Contribute(store, caller, stokvelId, amount, paymentReference, transactionId, timestamp);
    if res.Ok? {
      var i := FindStokvel(store, stokvelId).value;
      var s := store[i];
      var k := FindMember(s.members, caller.id).value;
      var m' := s.members[k].(contributions := s.members[k].contributions + amount);
      assert store'[i].members == s.members[k := m'];
      SumUpdate(s.members, k, m');
      assert WellFormedStokvel(store'[i]);
    }
  }

  // ---------------------------------------------------------------------------
  // List and details

  /** A stokvel as the list and details routes return it, with the caller's total and the progress percentage. */
  datatype View = View(stokvel: Stokvel, myContribution: int, progress: Option<int>)

  /** `members.find(m => m.id === userId)?.contributions || 0`. */
  function MyContribution(s: Stokvel, userId: nat): (c: int)
    ensures IsMember(s, userId) ==> c == s.members[FindMember(s.members, userId).value].contributions
    ensures !IsMember(s, userId) ==> c == 0
  {
    match FindMember(s.members, userId)
    case None => 0
    case Some(k) => s.members[k].contributions
  }

  /** `Math.round(balance / targetAmount * 100)`; a zero target gives a non-finite number, which JSON renders as null (None). */
  function Progress(balance: int, targetAmount: int): (p: Option<int>)
    ensures p.None? <==> targetAmount == 0
    ensures p.Some? ==>
      (p.value as real) - 0.5 <= ((100 * balance) as real) / (targetAmount as real) < (p.value as real) + 0.5
  {
    if targetAmount == 0 then None else Some(RoundRatio(100 * balance, targetAmount))
  }

  function ViewOf(s: Stokvel, userId: nat): View {
    View(s, MyContribution(s, userId), Progress(s.balance, s.targetAmount))
  }

  /** `GET /stokvels`: the caller's stokvels in collection order, each annotated. */
  function ListFor(store: seq<Stokvel>, userId: nat): (r: seq<View>)
    ensures |r| <= |store|
    ensures forall v :: v in r ==> v.stokvel in store && CanSee(v.stokvel, userId) && v == ViewOf(v.stokvel, userId)
    ensures forall s :: s in store && CanSee(s, userId) ==> ViewOf(s, userId) in r
  {
    if store == [] then []
    else
      var rest := ListFor(store[1..], userId);
      if CanSee(store[0], userId) then [ViewOf(store[0], userId)] + rest else rest
  }

  /** Listing keeps collection order: the list of a concatenation is the concatenation of the lists. */
  lemma {:induction false} ListForAppend(a: seq<Stokvel>, b: seq<Stokvel>, userId: nat)
    ensures ListFor(a + b, userId) == ListFor(a, userId) + ListFor(b, userId)
  {
    if a == [] {
      assert a + b == b;
    } else {
      assert (a + b)[1..] == a[1..] + b;
      ListForAppend(a[1..], b, userId);
    }
  }

  /** `GET /stokvels/:id`. */
  function GetDetails(store: seq<Stokvel>, userId: nat, stokvelId: int): (r: Result<View>)
    ensures FindStokvel(store, stokvelId).None? ==> r == Err(NotFound)
    ensures FindStokvel(store, stokvelId).Some? ==>
      var s := store[FindStokvel(store, stokvelId).value];
      if CanSee(s, userId) then r == Ok(ViewOf(s, userId)) else r == Err(AccessDenied)
  {
    match FindStokvel(store, stokvelId)
    case None => Err(NotFound)
    case Some(i) => if CanSee(store[i], userId) then Ok(ViewOf(store[i], userId)) else Err(AccessDenied)
  }

  /** Details are shown exactly for the stokvels the list shows: in a well-formed store the two routes agree. */
  lemma DetailsAgreeWithList(store: seq<Stokvel>, userId: nat, stokvelId: int)
    requires WellFormedStore(store)
    ensures GetDetails(store, userId, stokvelId).Ok? <==>
      exists v :: v in ListFor(store, userId) && v.stokvel.id == stokvelId
    ensures GetDetails(store, userId, stokvelId).Ok? ==>
      GetDetails(store, userId, stokvelId).value in ListFor(store, userId)
  {
    FindInWellFormed(store, stokvelId);
    var list := ListFor(store, userId);
    var d := GetDetails(store, userId, stokvelId);
    if d.Ok? {
      var s := store[stokvelId - 1];
      assert s in store && CanSee(s, userId) && d.value == ViewOf(s, userId);
      assert ViewOf(s, userId) in list;
    }
    if exists v :: v in list && v.stokvel.id == stokvelId {
      var v :| v in list && v.stokvel.id == stokvelId;
      assert v.stokvel in store && CanSee(v.stokvel, userId);
      var j :| 0 <= j < |store| && store[j] == v.stokvel;
      assert j == stokvelId - 1;
      assert d == Ok(ViewOf(store[j], userId));
    }
  }

  /** A stokvel at its target shows 100 percent progress, and an empty one 0 percent. */
  lemma ProgressEndpoints(target: int)
    requires target != 0
    ensures Progress(target, target) == Some(100)
    ensures Progress(0, target) == Some(0)
  {
    assert ((100 * target) as real) / (target as real) == 100.0;
  }

  // ---------------------------------------------------------------------------
  // Runs of requests

  /** One state-changing request to the routes. */
  datatype Request =
    | CreateReq(caller: Caller, create: CreateRequest, ctx: CreateContext)
    | JoinReq(caller: Caller, stokvelId: int, inviteCode: string, joinedAt: string)
    | ContributeReq(caller: Caller, stokvelId: int, amount: int, paymentReference: string,
                    transactionId: int, timestamp: string)

  function Apply(store: seq<Stokvel>, q: Request): seq<Stokvel> {
    match q
    case CreateReq(c, r, ctx) => Create(store, c, r, ctx).0
    case JoinReq(c, id, code, at) => Join(store, c, id, code, at).0
    case ContributeReq(c, id, amount, ref, tx, ts) => Contribute(store, c, id, amount, ref, tx, ts).0
  }

  function Run(store: seq<Stokvel>, qs: seq<Request>): seq<Stokvel>
    decreases |qs|
  {
    if qs == [] then store else Run(Apply(store, qs[0]), qs[1..])
  }

  lemma ApplyKeepsBooks(store: seq<Stokvel>, q: Request)
    requires WellFormedStore(store)
    ensures var store' := Apply(store, q);
      && WellFormedStore(store') && |store| <= |store'|
      && (forall i :: 0 <= i < |store| ==> Surplus(store'[i]) == Surplus(store[i]))
      && (forall i :: |store| <= i < |store'| ==> Surplus(store'[i]) == 0)
  {
    match q
    case CreateReq(c, r, ctx) =>
      CreatePreservesWellFormed(store, c, r, ctx);
    case JoinReq(c, id, code, at) =>
      JoinPreservesWellFormed(store, c, id, code, at);
    case ContributeReq(c, id, amount, ref, tx, ts) =>
      ContributePreservesSurplus(store, c, id, amount, ref, tx, ts);
  }

  /**
   Whatever requests arrive, the store stays well formed, every stokvel keeps
   its surplus, and every stokvel created through the routes holds exactly
   the sum of its members' contributions.
   */
  lemma {:induction false} RunKeepsBooks(store: seq<Stokvel>, qs: seq<Request>)
    requires WellFormedStore(store)
    ensures var store' := Run(store, qs);
      && WellFormedStore(store') && |store| <= |store'|
      && (forall i :: 0 <= i < |store| ==> Surplus(store'[i]) == Surplus(store[i]))
      && (forall i :: |store| <= i < |store'| ==> store'[i].balance == SumContributions(store'[i].members))
    decreases |qs|
  {
    if qs != [] {
      ApplyKeepsBooks(store, qs[0]);
      RunKeepsBooks(Apply(store, qs[0]), qs[1..]);
    }
  }

  /**
   With room for two members, the invitee's second join attempt is refused
   as full: the capacity check comes before the membership check.
   */
  lemma SecondJoinOfPairIsFull(store: seq<Stokvel>, a: Caller, b: Caller, r: CreateRequest, ctx: CreateContext,
                               at1: string, at2: string)
    requires WellFormedStore(store)
    requires ValidCreate(r) && r.maxMembers == 2 && a.id != b.id && ctx.inviteCode != ""
    ensures var (s1, c) := Create(store, a, r, ctx);
      var (s2, j1) := Join(s1, b, c.value.id, ctx.inviteCode, at1);
      && j1.Ok? && |j1.value.members| == 2
      && Join(s2, b, c.value.id, ctx.inviteCode, at2) == (s2, Err(Full))
  {
    var (s1, c) := Create(store, a, r, ctx);
    CreatePreservesWellFormed(store, a, r, ctx);
    FindInWellFormed(s1, c.value.id);
    var (s2, j1) := Join(s1, b, c.value.id, ctx.inviteCode, at1);
    JoinPreservesWellFormed(s1, b, c.value.id, ctx.inviteCode, at1);
    FindInWellFormed(s2, c.value.id);
  }

  /** With room to spare, the same second attempt is refused because the caller is already a member. */
  lemma SecondJoinWithRoomIsDuplicate(store: seq<Stokvel>, a: Caller, b: Caller, r: CreateRequest, ctx: CreateContext,
                                      at1: string, at2: string)
    requires WellFormedStore(store)
    requires ValidCreate(r) && r.maxMembers > 2 && a.id != b.id && ctx.inviteCode != ""
    ensures var (s1, c) := Create(store, a, r, ctx);
      var (s2, j1) := Join(s1, b, c.value.id, ctx.inviteCode, at1);
      && j1.Ok?
      && Join(s2, b, c.value.id, ctx.inviteCode, at2) == (s2, Err(AlreadyMember))
  {
    var (s1, c) := Create(store, a, r, ctx);
    CreatePreservesWellFormed(store, a, r, ctx);
    FindInWellFormed(s1, c.value.id);
    var (s2, j1) := Join(s1, b, c.value.id, ctx.inviteCode, at1);
    JoinPreservesWellFormed(s1, b, c.value.id, ctx.inviteCode, at1);
    FindInWellFormed(s2, c.value.id);
    var ms := s2[c.value.id - 1].members;
    assert ms[|ms| - 1].id == b.id;
  }
}
