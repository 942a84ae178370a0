/**
 threads-be/src/modules/conversations/conversations.service.ts: creating conversations, adding
 participants and leaving. A participant row is never deleted; leaving only marks it.
 */
module Conversations {
  import opened Collections

  type UserId = nat
  type ConvId = nat

  datatype Kind = Direct | Group | Channel
  datatype Role = Member | Admin | Owner
  datatype Row = Row(role: Role, left: bool)

  /** The key (conversationId, userId) is unique, so the rows of a conversation are a map. */
  datatype Conv = Conv(kind: Kind, rows: map<UserId, Row>)

  datatype State = State(users: set<UserId>, convs: map<ConvId, Conv>)

  datatype Outcome = Made(id: ConvId) | Existing(id: ConvId) | BadRequest | Forbidden | NotFound | ServerError

  const INIT := State({}, map[])

  // ---------------------------------------------------------------------------------------
  // create
  // ---------------------------------------------------------------------------------------

  /** The caller joins the list at its end, unless he is on it. */
  function WithMe(ids: seq<UserId>, me: UserId): seq<UserId> {
    if me in ids then ids else ids + [me]
  }

  /** How many users the query on the ids returns: each user once. */
  function Found(s: State, ids: seq<UserId>): nat {
    |s.users * Elements(ids)|
  }

  /** A DIRECT conversation of exactly these two that neither has left. */
  predicate ActiveDirect(conv: Conv, a: UserId, b: UserId) {
    && conv.kind == Direct && conv.rows.Keys == {a, b} && |conv.rows| == 2
    && (forall u :: u in conv.rows ==> !conv.rows[u].left)
  }

  /** The rows that `create` writes: the first id owns a group. */
  function FirstRows(kind: Kind, ids: seq<UserId>): map<UserId, Row> {
    map u | u in Elements(ids) :: Row(if kind == Group && u == ids[0] then Owner else Member, false)
  }

  /** The transaction of `create`. */
  function Written(s: State, id: ConvId, kind: Kind, ids: seq<UserId>): State {
    s.(convs := s.convs[id := Conv(kind, FirstRows(kind, ids))])
  }

  /** The checks before the write. */
  function Refusal(s: State, kind: Kind, named: bool, given: seq<UserId>, me: UserId): (bad: bool) {
    var ids := WithMe(given, me);
    || given == []
    || Found(s, ids) != |ids|
    || (kind == Direct && |ids| != 2)
    || (kind == Group && (!named || |ids| < 2))
  }

  ghost predicate HasActiveDirect(s: State, a: UserId, b: UserId) {
    exists c :: c in s.convs && ActiveDirect(s.convs[c], a, b)
  }

  ghost function Create(s: State, id: ConvId, kind: Kind, named: bool, given: seq<UserId>, me: UserId): (State, Outcome)
    requires id !in s.convs
  {
    var ids := WithMe(given, me);
    if Refusal(s, kind, named, given, me) then (s, BadRequest)
    else if kind == Direct && HasActiveDirect(s, ids[0], ids[1]) then
      var c :| c in s.convs && ActiveDirect(s.convs[c], ids[0], ids[1]);
      (s, Existing(c))
    else (Written(s, id, kind, ids), Made(id))
  }

  // ---------------------------------------------------------------------------------------
  // addParticipant and leaveConversation
  // ---------------------------------------------------------------------------------------

  function WithRow(s: State, c: ConvId, u: UserId, row: Row): State
    requires c in s.convs
  {
    s.(convs := s.convs[c := s.convs[c].(rows := s.convs[c].rows[u := row])])
  }

  function AddParticipant(s: State, c: ConvId, actor: UserId, newcomer: UserId): (State, Outcome) {
    if c !in s.convs || actor !in s.convs[c].rows then (s, Forbidden)
    else
      var conv := s.convs[c];
      if conv.kind != Group then (s, BadRequest)
      else if conv.rows[actor].role != Admin && conv.rows[actor].role != Owner then (s, Forbidden)
      else if newcomer in conv.rows && !conv.rows[newcomer].left then (s, BadRequest)
      else if newcomer in conv.rows then (WithRow(s, c, newcomer, conv.rows[newcomer].(left := false)), Made(c))
      else if newcomer !in s.users then (s, ServerError)
      else (WithRow(s, c, newcomer, Row(Member, false)), Made(c))
  }

  function Leave(s: State, c: ConvId, u: UserId): (State, Outcome) {
    if c !in s.convs || u !in s.convs[c].rows then (s, NotFound)
    else if s.convs[c].rows[u].left then (s, BadRequest)
    else (WithRow(s, c, u, s.convs[c].rows[u].(left := true)), Made(c))
  }

  datatype Event =
    | Register(user: UserId)
    | CreateCall(id: ConvId, kind: Kind, named: bool, ids: seq<UserId>, me: UserId)
    | AddCall(c: ConvId, actor: UserId, newcomer: UserId)
    | LeaveCall(c: ConvId, user: UserId)

  ghost function Step(s: State, e: Event): State {
    match e
    case Register(u) => s.(users := s.users + {u})
    case CreateCall(id, kind, named, ids, me) => if id in s.convs then s else Create(s, id, kind, named, ids, me).0
    case AddCall(c, actor, newcomer) => AddParticipant(s, c, actor, newcomer).0
    case LeaveCall(c, u) => Leave(s, c, u).0
  }

  ghost function Run(s: State, es: seq<Event>): State
    decreases es
  {
    if es == [] then s else Run(Step(s, es[0]), es[1..])
  }

  // ---------------------------------------------------------------------------------------
  // The length comparison
  // ---------------------------------------------------------------------------------------

  /** The count of users found equals the number of ids given exactly when all exist and none is repeated. */
  lemma LengthCheckIff(s: State, ids: seq<UserId>)
    ensures Found(s, ids) == |ids| <==> NoRepeats(ids) && Elements(ids) <= s.users
  {
    ElementsSize(ids);
    var all, found := Elements(ids), s.users * Elements(ids);
    assert all == found + (all - found);
    assert |all| == |found| + |all - found|;
    if Elements(ids) <= s.users { assert found == all; }
  }

  lemma WithMeSize(given: seq<UserId>, me: UserId)
    ensures Elements(WithMe(given, me)) == Elements(given) + {me}
    ensures NoRepeats(WithMe(given, me)) <==> NoRepeats(given)
    ensures NoRepeats(given) ==> |WithMe(given, me)| == |Elements(given) + {me}|
  {
    var ids := WithMe(given, me);
    assert Elements(ids) == Elements(given) + {me};
    ElementsSize(given);
    ElementsSize(ids);
    if me !in given {
      assert me !in Elements(given);
    }
  }

  /** Nobody named, somebody twice or unknown, not two people for a DIRECT, no name or nobody else for a GROUP. */
  ghost predicate Bad(s: State, kind: Kind, named: bool, given: seq<UserId>, me: UserId) {
    || given == []
    || !NoRepeats(given)
    || !(Elements(given) + {me} <= s.users)
    || (kind == Direct && |Elements(given) + {me}| != 2)
    || (kind == Group && (!named || |Elements(given) + {me}| < 2))
  }

  /** `create` refuses exactly these requests, said without counting rows. */
  lemma RefusalIff(s: State, kind: Kind, named: bool, given: seq<UserId>, me: UserId)
    ensures Refusal(s, kind, named, given, me) <==> Bad(s, kind, named, given, me)
  {
    WithMeSize(given, me);
    LengthCheckIff(s, WithMe(given, me));
  }

  /** This conversation is the pair's own: DIRECT, exactly the given person and the caller, neither of whom left. */
  ghost predicate IsTheirs(s: State, c: ConvId, given: seq<UserId>, me: UserId) {
    && c in s.convs && s.convs[c].kind == Direct && s.convs[c].rows.Keys == Elements(given) + {me}
    && (forall u :: u in s.convs[c].rows ==> !s.convs[c].rows[u].left)
  }

  lemma PairIsTheirs(s: State, given: seq<UserId>, me: UserId, c: ConvId)
    requires !Bad(s, Direct, false, given, me)
    ensures var ids := WithMe(given, me);
            |ids| == 2 && ids[0] != ids[1] && {ids[0], ids[1]} == Elements(given) + {me}
            && (c in s.convs && ActiveDirect(s.convs[c], ids[0], ids[1]) <==> IsTheirs(s, c, given, me))
  {
    var ids := WithMe(given, me);
    WithMeSize(given, me);
    ElementsSize(ids);
    assert ids == [ids[0], ids[1]] && Differ(ids, 0, 1);
    assert Elements(ids) == {ids[0], ids[1]};
    if c in s.convs && s.convs[c].rows.Keys == {ids[0], ids[1]} {
      assert |s.convs[c].rows| == |s.convs[c].rows.Keys| == 2;
    }
  }

  /** A new conversation: the given people and the caller, all of them in it; a group belongs to the first listed. */
  ghost predicate IsNew(conv: Conv, kind: Kind, given: seq<UserId>, me: UserId) {
    && conv.kind == kind && conv.rows.Keys == Elements(given) + {me}
    && (forall u :: u in conv.rows ==> !conv.rows[u].left)
    && (forall u :: u in conv.rows ==>
          conv.rows[u].role == if kind == Group && given != [] && u == given[0] then Owner else Member)
  }

  /**
   What `create` answers: a refusal for a bad request; the conversation that the two have already; and otherwise
   a new one. Only the last changes anything, and nothing but that one conversation.
   */
  ghost predicate Answers(s: State, t: State, outcome: Outcome, id: ConvId, kind: Kind, named: bool,
                          given: seq<UserId>, me: UserId)
  {
    if Bad(s, kind, named, given, me) then t == s && outcome == BadRequest
    else if kind == Direct && exists c :: IsTheirs(s, c, given, me) then
      t == s && outcome.Existing? && IsTheirs(s, outcome.id, given, me)
    else
      && outcome == Made(id) && t.users == s.users
      && t.convs.Keys == s.convs.Keys + {id}
      && (forall c :: c in s.convs ==> t.convs[c] == s.convs[c])
      && IsNew(t.convs[id], kind, given, me)
  }

  lemma CreateAnswers(s: State, id: ConvId, kind: Kind, named: bool, given: seq<UserId>, me: UserId)
    requires id !in s.convs
    ensures var (t, outcome) := Create(s, id, kind, named, given, me);
            Answers(s, t, outcome, id, kind, named, given, me)
  {
    var ids := WithMe(given, me);
    RefusalIff(s, kind, named, given, me);
    WithMeSize(given, me);
    if !Bad(s, kind, named, given, me) {
      assert ids[0] == given[0];
      if kind == Direct {
        forall c ensures c in s.convs && ActiveDirect(s.convs[c], ids[0], ids[1]) <==> IsTheirs(s, c, given, me) {
          PairIsTheirs(s, given, me, c);
        }
      }
    }
  }

  // ---------------------------------------------------------------------------------------
  // Invariants
  // ---------------------------------------------------------------------------------------

  function Owners(conv: Conv): set<UserId> {
    set u | u in conv.rows && conv.rows[u].role == Owner
  }

  ghost predicate ConvOk(conv: Conv) {
    && (forall u :: u in conv.rows ==> conv.rows[u].role != Admin)
    && (conv.kind == Direct ==> |conv.rows.Keys| == 2 && Owners(conv) == {})
    && (conv.kind == Group ==> |Owners(conv)| == 1)
    && (conv.kind == Channel ==> Owners(conv) == {})
  }

  ghost predicate Inv(s: State) {
    && (forall c :: c in s.convs ==> ConvOk(s.convs[c]))
    && (forall c, d, a, b ::
          c in s.convs && d in s.convs && ActiveDirect(s.convs[c], a, b) && ActiveDirect(s.convs[d], a, b)
          ==> c == d)
  }

  lemma FirstRowsOk(kind: Kind, ids: seq<UserId>)
    requires ids != [] && NoRepeats(ids) && (kind == Direct ==> |ids| == 2)
    ensures ConvOk(Conv(kind, FirstRows(kind, ids)))
    ensures kind == Group ==> Owners(Conv(kind, FirstRows(kind, ids))) == {ids[0]}
    ensures FirstRows(kind, ids).Keys == Elements(ids)
  {
    ElementsSize(ids);
    var conv := Conv(kind, FirstRows(kind, ids));
    assert ids[0] in Elements(ids);
    assert conv.rows.Keys == Elements(ids);
    assert Owners(conv) == if kind == Group then {ids[0]} else {};
  }

  lemma CreateInv(s: State, id: ConvId, kind: Kind, named: bool, given: seq<UserId>, me: UserId)
    requires Inv(s) && id !in s.convs
    ensures Inv(Create(s, id, kind, named, given, me).0)
  {
    var ids := WithMe(given, me);
    var (t, outcome) := Create(s, id, kind, named, given, me);
    if outcome.Made? {
      LengthCheckIff(s, ids);
      FirstRowsOk(kind, ids);
      if kind == Direct {
        assert ids == [ids[0], ids[1]] && Differ(ids, 0, 1);
        StaleLookIff(s, id, ids[0], ids[1]);
      }
    }
  }

  /** Marking a row left or returned keeps roles; only a group can get a row back. */
  lemma RowInv(s: State, c: ConvId, u: UserId, row: Row)
    requires Inv(s) && c in s.convs
    requires u in s.convs[c].rows ==> row.role == s.convs[c].rows[u].role && (s.convs[c].kind == Direct ==> row.left)
    requires u !in s.convs[c].rows ==> s.convs[c].kind == Group && row.role == Member
    ensures Inv(WithRow(s, c, u, row))
  {
    var conv, t := s.convs[c], WithRow(s, c, u, row);
    assert Owners(t.convs[c]) == Owners(conv);
    assert t.convs[c].rows.Keys == conv.rows.Keys + {u};
    if u in conv.rows { assert conv.rows.Keys + {u} == conv.rows.Keys; }
    forall d, a, b | d in t.convs && ActiveDirect(t.convs[d], a, b)
      ensures ActiveDirect(s.convs[d], a, b)
    {}
  }

  lemma StepInv(s: State, e: Event)
    requires Inv(s)
    ensures Inv(Step(s, e))
  {
    match e
    case Register(u) =>
    case CreateCall(id, kind, named, ids, me) => if id !in s.convs { CreateInv(s, id, kind, named, ids, me); }
    case AddCall(c, actor, newcomer) =>
      if AddParticipant(s, c, actor, newcomer).1.Made? {
        RowInv(s, c, newcomer, AddParticipant(s, c, actor, newcomer).0.convs[c].rows[newcomer]);
      }
    case LeaveCall(c, u) =>
      if Leave(s, c, u).1.Made? {
        RowInv(s, c, u, s.convs[c].rows[u].(left := true));
      }
  }

  /** What never changes about a conversation: its kind, the rows of a DIRECT one, every role. */
  ghost predicate Continues(x: Conv, y: Conv) {
    && y.kind == x.kind
    && x.rows.Keys <= y.rows.Keys
    && (x.kind == Direct ==> y.rows.Keys == x.rows.Keys)
    && (forall u :: u in x.rows ==> y.rows[u].role == x.rows[u].role)
    && (x.kind == Direct ==> forall u :: u in x.rows && x.rows[u].left ==> y.rows[u].left)
  }

  lemma StepContinues(s: State, e: Event, c: ConvId)
    requires c in s.convs
    ensures c in Step(s, e).convs && Continues(s.convs[c], Step(s, e).convs[c])
  {}

  lemma {:induction false} RunContinues(s: State, es: seq<Event>, c: ConvId)
    requires Inv(s) && c in s.convs
    ensures Inv(Run(s, es)) && c in Run(s, es).convs && Continues(s.convs[c], Run(s, es).convs[c])
    decreases es
  {
    if es != [] {
      StepInv(s, es[0]);
      StepContinues(s, es[0], c);
      RunContinues(Step(s, es[0]), es[1..], c);
    }
  }

  lemma {:induction false} RunInv(s: State, es: seq<Event>)
    requires Inv(s)
    ensures Inv(Run(s, es))
    decreases es
  {
    if es != [] {
      StepInv(s, es[0]);
      RunInv(Step(s, es[0]), es[1..]);
    }
  }

  /**
   Over every sequence of calls: two people have at most one DIRECT conversation that neither left;
   every DIRECT one has exactly two participants, every GROUP exactly one owner; nobody is an admin.
   */
  lemma ConversationsAreSound(es: seq<Event>)
    ensures var s := Run(INIT, es);
            && (forall c, d, a, b ::
                  c in s.convs && d in s.convs && ActiveDirect(s.convs[c], a, b) && ActiveDirect(s.convs[d], a, b)
                  ==> c == d)
            && (forall c :: c in s.convs && s.convs[c].kind == Direct ==> |s.convs[c].rows.Keys| == 2)
            && (forall c :: c in s.convs && s.convs[c].kind == Group ==> |Owners(s.convs[c])| == 1)
            && (forall c, u :: c in s.convs && u in s.convs[c].rows ==> s.convs[c].rows[u].role != Admin)
  {
    RunInv(INIT, es);
  }

  /** The two of a DIRECT conversation, and the owner of a GROUP, stay the same for ever. */
  lemma ParticipantsAndOwnersAreForever(s: State, es: seq<Event>, c: ConvId)
    requires Inv(s) && c in s.convs
    ensures var t := Run(s, es);
            && c in t.convs && t.convs[c].kind == s.convs[c].kind
            && (s.convs[c].kind == Direct ==> t.convs[c].rows.Keys == s.convs[c].rows.Keys)
            && (s.convs[c].kind == Group ==> Owners(t.convs[c]) == Owners(s.convs[c]))
  {
    RunContinues(s, es, c);
    var x, y := s.convs[c], Run(s, es).convs[c];
    if x.kind == Group {
      assert Owners(x) <= Owners(y);
      assert Owners(y) == Owners(x) + (Owners(y) - Owners(x));
      assert |Owners(y)| == |Owners(x)| + |Owners(y) - Owners(x)|;
    }
  }

  /** All is as it was except, in one conversation, the row of one person, who has a row afterwards. */
  ghost predicate OnlyRow(s: State, t: State, c: ConvId, u: UserId) {
    && t.users == s.users && t.convs.Keys == s.convs.Keys && c in s.convs
    && (forall d :: d in s.convs && d != c ==> t.convs[d] == s.convs[d])
    && t.convs[c].kind == s.convs[c].kind
    && t.convs[c].rows.Keys == s.convs[c].rows.Keys + {u}
    && (forall v :: v in s.convs[c].rows && v != u ==> t.convs[c].rows[v] == s.convs[c].rows[v])
  }

  ghost predicate Present(s: State, c: ConvId, u: UserId) {
    c in s.convs && u in s.convs[c].rows && !s.convs[c].rows[u].left
  }

  /**
   Who can be added: to a group, by its owner and nobody else (whether or not he left himself), a person
   who is not in it now. Nobody else's row changes; whoever comes back keeps his role.
   */
  lemma AddSucceedsIff(s: State, c: ConvId, actor: UserId, newcomer: UserId)
    requires Inv(s)
    ensures var (t, outcome) := AddParticipant(s, c, actor, newcomer);
            && (outcome.Made? <==>
                && c in s.convs && s.convs[c].kind == Group && Owners(s.convs[c]) == {actor}
                && (if newcomer in s.convs[c].rows then s.convs[c].rows[newcomer].left else newcomer in s.users))
            && (!outcome.Made? ==> t == s)
            && (outcome.Made? ==>
                && outcome.id == c && OnlyRow(s, t, c, newcomer) && Present(t, c, newcomer)
                && t.convs[c].rows[newcomer].role
                   == if newcomer in s.convs[c].rows then s.convs[c].rows[newcomer].role else Member)
  {
    if c in s.convs && s.convs[c].kind == Group { OwnerIs(s, c, actor); }
  }

  lemma OwnerIs(s: State, c: ConvId, actor: UserId)
    requires Inv(s) && c in s.convs && s.convs[c].kind == Group
    ensures Owners(s.convs[c]) == {actor} <==> actor in s.convs[c].rows && s.convs[c].rows[actor].role == Owner
  {
    var owners := Owners(s.convs[c]);
    assert owners == {actor} ==> actor in owners;
    if actor in owners {
      assert owners == {actor} + (owners - {actor}) && |owners - {actor}| == 0;
    }
  }

  /** And how the others are answered. */
  lemma AddRefusals(s: State, c: ConvId, actor: UserId, newcomer: UserId)
    requires Inv(s)
    ensures var outcome := AddParticipant(s, c, actor, newcomer).1;
            var inside := c in s.convs && actor in s.convs[c].rows;
            var owner := inside && s.convs[c].kind == Group && Owners(s.convs[c]) == {actor};
            && (outcome == Forbidden <==> !inside || (s.convs[c].kind == Group && !owner))
            && (outcome == BadRequest <==> inside && (s.convs[c].kind != Group || (owner && Present(s, c, newcomer))))
            && (outcome == ServerError <==> owner && newcomer !in s.convs[c].rows && newcomer !in s.users)
  {
    if c in s.convs && s.convs[c].kind == Group { OwnerIs(s, c, actor); }
  }

  /** Exactly whoever is in a conversation can leave it, once; his row stays, with its role, and is marked. */
  lemma LeaveIff(s: State, c: ConvId, u: UserId)
    ensures var (t, outcome) := Leave(s, c, u);
            && (outcome == Made(c) <==> Present(s, c, u))
            && (outcome == NotFound <==> !(c in s.convs && u in s.convs[c].rows))
            && (outcome == BadRequest <==> c in s.convs && u in s.convs[c].rows && !Present(s, c, u))
            && (outcome != Made(c) ==> t == s)
            && (outcome == Made(c) ==>
                OnlyRow(s, t, c, u) && t.convs[c].rows[u] == Row(s.convs[c].rows[u].role, true))
  {
    if Present(s, c, u) { assert s.convs[c].rows.Keys + {u} == s.convs[c].rows.Keys; }
  }

  /** People come into an existing conversation only when the owner of a group adds them, and go only by leaving. */
  lemma PresenceChanges(s: State, e: Event, c: ConvId, u: UserId)
    requires Inv(s) && c in s.convs
    ensures Present(Step(s, e), c, u) <==>
            if e == LeaveCall(c, u) then false
            else if e.AddCall? && e.c == c && e.newcomer == u && s.convs[c].kind == Group
                    && Owners(s.convs[c]) == {e.actor} && (u in s.convs[c].rows || u in s.users) then true
            else Present(s, c, u)
  {
    match e
    case AddCall(d, actor, newcomer) => AddSucceedsIff(s, d, actor, newcomer);
    case LeaveCall(d, v) => LeaveIff(s, d, v);
    case Register(_) =>
    case CreateCall(_, _, _, _, _) =>
  }

  /** Adding back undoes leaving: kind, participants, roles and who has left are as they were. */
  lemma AddUndoesLeave(s: State, c: ConvId, actor: UserId, u: UserId)
    requires Inv(s) && c in s.convs && s.convs[c].kind == Group && Owners(s.convs[c]) == {actor}
    requires u in s.convs[c].rows && !s.convs[c].rows[u].left
    ensures Leave(s, c, u).1.Made?
    ensures AddParticipant(Leave(s, c, u).0, c, actor, u) == (s, Made(c))
  {
    assert actor in Owners(s.convs[c]);
    var conv, t := s.convs[c], AddParticipant(Leave(s, c, u).0, c, actor, u).0;
    assert t.convs[c].rows == conv.rows;
    assert t.convs == s.convs;
  }

  /** A new group is owned by the first id listed: by its creator exactly when he lists himself first. */
  lemma CreatorOwnsIff(s: State, id: ConvId, given: seq<UserId>, me: UserId, named: bool)
    requires id !in s.convs && Create(s, id, Group, named, given, me).1 == Made(id)
    ensures me in Owners(Create(s, id, Group, named, given, me).0.convs[id]) <==> given[0] == me
  {
    var ids := WithMe(given, me);
    LengthCheckIff(s, ids);
    FirstRowsOk(Group, ids);
  }

  /**
   `create` looks first and writes later. By the time it writes a DIRECT conversation, doing so keeps the
   invariant exactly if the pair still has none.
   */
  lemma StaleLookIff(s: State, id: ConvId, a: UserId, b: UserId)
    requires Inv(s) && id !in s.convs && a != b
    ensures Inv(Written(s, id, Direct, [a, b])) <==> !HasActiveDirect(s, a, b)
  {
    var t := Written(s, id, Direct, [a, b]);
    assert NoRepeats([a, b]);
    FirstRowsOk(Direct, [a, b]);
    assert Elements([a, b]) == {a, b};
    assert |t.convs[id].rows.Keys| == 2 == |t.convs[id].rows|;
    assert ActiveDirect(t.convs[id], a, b);
    if HasActiveDirect(s, a, b) {
      var c :| c in s.convs && ActiveDirect(s.convs[c], a, b);
      assert ActiveDirect(t.convs[c], a, b);
    } else {
      forall x: UserId, y: UserId | ActiveDirect(t.convs[id], x, y) ensures {x, y} == {a, b} {}
      forall c, x: UserId, y: UserId | c in s.convs && ActiveDirect(s.convs[c], x, y) ensures {x, y} != {a, b} {}
    }
  }

  // ---------------------------------------------------------------------------------------
  // Creates that interleave
  // ---------------------------------------------------------------------------------------

  type CallId = nat

  /** What a `create` that has passed its checks and found nothing is about to write. */
  datatype Pending = Pending(kind: Kind, ids: seq<UserId>)

  datatype Busy = Busy(state: State, pending: map<CallId, Pending>)

  datatype Phase =
    | Whole(e: Event)                                                            // any other call, uninterrupted
    | Look(call: CallId, kind: Kind, named: bool, given: seq<UserId>, me: UserId)  // the checks and the search
    | Write(call: CallId, id: ConvId)                                            // the transaction

  ghost predicate LooksClear(s: State, kind: Kind, named: bool, given: seq<UserId>, me: UserId) {
    !Refusal(s, kind, named, given, me)
    && (kind == Direct ==> |WithMe(given, me)| == 2 && !HasActiveDirect(s, WithMe(given, me)[0], WithMe(given, me)[1]))
  }

  ghost predicate CanWrite(b: Busy, call: CallId, id: ConvId) {
    call in b.pending && id !in b.state.convs
  }

  ghost function StepPhase(b: Busy, p: Phase): Busy {
    match p
    case Whole(e) => b.(state := Step(b.state, e))
    case Look(call, kind, named, given, me) =>
      if call in b.pending || !LooksClear(b.state, kind, named, given, me) then b
      else b.(pending := b.pending[call := Pending(kind, WithMe(given, me))])
    case Write(call, id) =>
      if !CanWrite(b, call, id) then b
      else Busy(Written(b.state, id, b.pending[call].kind, b.pending[call].ids), b.pending - {call})
  }

  ghost function RunPhases(b: Busy, ps: seq<Phase>): Busy
    decreases ps
  {
    if ps == [] then b else RunPhases(StepPhase(b, ps[0]), ps[1..])
  }

  /** A look and a write in a row are the call; if it finds an existing conversation there is nothing to write. */
  lemma PhasesInARow(b: Busy, call: CallId, id: ConvId, kind: Kind, named: bool, given: seq<UserId>, me: UserId)
    requires call !in b.pending && id !in b.state.convs
    ensures StepPhase(StepPhase(b, Look(call, kind, named, given, me)), Write(call, id)).state
         == Step(b.state, CreateCall(id, kind, named, given, me))
  {
    LengthCheckIff(b.state, WithMe(given, me));
  }

  /** A DIRECT conversation is written though by now the pair has one: the look was too long ago. */
  ghost predicate StaleWrite(b: Busy, p: Phase) {
    && p.Write? && CanWrite(b, p.call, p.id) && b.pending[p.call].kind == Direct
    && |b.pending[p.call].ids| == 2 && HasActiveDirect(b.state, b.pending[p.call].ids[0], b.pending[p.call].ids[1])
  }

  ghost predicate NoStaleWrites(b: Busy, ps: seq<Phase>)
    decreases ps
  {
    ps == [] || (!StaleWrite(b, ps[0]) && NoStaleWrites(StepPhase(b, ps[0]), ps[1..]))
  }

  predicate PendingOk(pending: Pending) {
    pending.ids != [] && |Elements(pending.ids)| == |pending.ids| && (pending.kind == Direct ==> |pending.ids| == 2)
  }

  ghost predicate PendingsOk(b: Busy) {
    forall call :: call in b.pending ==> PendingOk(b.pending[call])
  }

  lemma WrittenOther(s: State, id: ConvId, kind: Kind, ids: seq<UserId>)
    requires Inv(s) && id !in s.convs && kind != Direct && ids != [] && NoRepeats(ids)
    ensures Inv(Written(s, id, kind, ids))
  {
    FirstRowsOk(kind, ids);
  }

  /** One phase keeps the invariant exactly if it is no stale write. */
  lemma PhaseKeepsInvIff(b: Busy, p: Phase)
    requires Inv(b.state) && PendingsOk(b)
    ensures PendingsOk(StepPhase(b, p)) && (Inv(StepPhase(b, p).state) <==> !StaleWrite(b, p))
  {
    match p
    case Whole(e) => StepInv(b.state, e);
    case Look(call, kind, named, given, me) =>
      if LooksClear(b.state, kind, named, given, me) {
        LengthCheckIff(b.state, WithMe(given, me));
        ElementsSize(WithMe(given, me));
      }
    case Write(call, id) =>
      if CanWrite(b, call, id) {
        var Pending(kind, ids) := b.pending[call];
        ElementsSize(ids);
        if kind == Direct {
          assert ids == [ids[0], ids[1]] && Differ(ids, 0, 1);
          StaleLookIff(b.state, id, ids[0], ids[1]);
        } else {
          WrittenOther(b.state, id, kind, ids);
        }
      }
  }

  /** However creates interleave, conversations stay sound as long as no write is stale. */
  lemma {:induction false} SoundWithoutStaleWrites(b: Busy, ps: seq<Phase>)
    requires Inv(b.state) && PendingsOk(b) && NoStaleWrites(b, ps)
    ensures Inv(RunPhases(b, ps).state) && PendingsOk(RunPhases(b, ps))
    decreases ps
  {
    if ps != [] {
      PhaseKeepsInvIff(b, ps[0]);
      SoundWithoutStaleWrites(StepPhase(b, ps[0]), ps[1..]);
    }
  }

  /** Two people, each creating a conversation with the other; both look before either writes. */
  function TwoLooks(): seq<Phase> {
    [Whole(Register(0)), Whole(Register(1)), Look(0, Direct, false, [1], 0), Look(1, Direct, false, [0], 1),
     Write(0, 0), Write(1, 1)]
  }

  lemma TwoPeopleLook(s: State, me: UserId, you: UserId)
    requires s.users == {0, 1} && s.convs == map[] && {me, you} == {0, 1} && me != you
    ensures LooksClear(s, Direct, false, [you], me) && WithMe([you], me) == [you, me]
  {
    var ids := WithMe([you], me);
    assert ids == [you, me];
    assert Elements(ids) == {0, 1} && s.users * Elements(ids) == {0, 1};
    assert |s.users * Elements(ids)| == |{0, 1}| == 2;
  }

  lemma PairWritten(s: State, id: ConvId, a: UserId, b: UserId)
    requires id !in s.convs && a != b
    ensures ActiveDirect(Written(s, id, Direct, [a, b]).convs[id], a, b)
  {
    var t := Written(s, id, Direct, [a, b]);
    assert NoRepeats([a, b]);
    FirstRowsOk(Direct, [a, b]);
    assert Elements([a, b]) == {a, b};
    assert |t.convs[id].rows.Keys| == 2 == |t.convs[id].rows|;
  }

  /** They end with two conversations of the same pair. */
  lemma TwoLooksTwoConversations()
    ensures var s := RunPhases(Busy(INIT, map[]), TwoLooks()).state;
            && 0 in s.convs && ActiveDirect(s.convs[0], 0, 1) && 1 in s.convs && ActiveDirect(s.convs[1], 0, 1)
            && !Inv(s)
  {
    var ps := TwoLooks();
    var b2 := StepPhase(StepPhase(Busy(INIT, map[]), ps[0]), ps[1]);
    assert b2.state.users == {0, 1};
    TwoPeopleLook(b2.state, 0, 1);
    TwoPeopleLook(b2.state, 1, 0);
    var b4 := StepPhase(StepPhase(b2, ps[2]), ps[3]);
    assert b4 == Busy(b2.state, map[0 := Pending(Direct, [1, 0]), 1 := Pending(Direct, [0, 1])]);
    PairWritten(b4.state, 0, 1, 0);
    var b5 := StepPhase(b4, ps[4]);
    assert b5.pending == map[1 := Pending(Direct, [0, 1])];
    PairWritten(b5.state, 1, 0, 1);
    var b6 := StepPhase(b5, ps[5]);
    assert {1, 0} == {0, 1};
    RunSix(Busy(INIT, map[]), ps);
    assert ActiveDirect(b6.state.convs[0], 0, 1) && ActiveDirect(b6.state.convs[1], 0, 1);
  }

  lemma RunSix(b: Busy, ps: seq<Phase>)
    requires |ps| == 6
    ensures RunPhases(b, ps)
            == StepPhase(StepPhase(StepPhase(StepPhase(StepPhase(StepPhase(b, ps[0]), ps[1]), ps[2]), ps[3]), ps[4]),
                ps[5])
  {
    RunTwo(b, ps);
    var c := StepPhase(StepPhase(b, ps[0]), ps[1]);
    RunTwo(c, ps[2..]);
    RunTwo(StepPhase(StepPhase(c, ps[2]), ps[3]), ps[2..][2..]);
    assert ps[2..][2..][2..] == [];
  }

  lemma RunTwo(b: Busy, ps: seq<Phase>)
    requires |ps| >= 2
    ensures RunPhases(b, ps) == RunPhases(StepPhase(StepPhase(b, ps[0]), ps[1]), ps[2..])
  {
    assert ps[1..][1..] == ps[2..];
    assert RunPhases(b, ps) == RunPhases(StepPhase(b, ps[0]), ps[1..]);
  }

  // ---------------------------------------------------------------------------------------
  // The service on its tables
  // ---------------------------------------------------------------------------------------

  class ConversationStore {
    var users: set<UserId>
    var convs: map<ConvId, Conv>

    ghost function View(): State
      reads this
    {
      State(users, convs)
    }

    constructor ()
      ensures View() == INIT
    {
      users, convs := {}, map[];
    }

    method FindExistingDirectConversation(a: UserId, b: UserId) returns (found: bool, c: ConvId)
      ensures found <==> HasActiveDirect(View(), a, b)
      ensures found ==> c in convs && ActiveDirect(convs[c], a, b)
    {
      var matches := set d | d in convs && ActiveDirect(convs[d], a, b);
      found := matches != {};
      if found {
        c :| c in matches;
        assert View().convs == convs;
      } else {
        c := 0;
        forall d | d in convs
          ensures !ActiveDirect(convs[d], a, b)
        {
          assert d !in matches;
        }
      }
    }

    method CreateConversation(id: ConvId, kind: Kind, named: bool, given: seq<UserId>, me: UserId)
          returns (outcome: Outcome)
      requires id !in convs && Inv(View())
      modifies this
      ensures (View(), outcome) == Create(old(View()), id, kind, named, given, me)
      ensures Answers(old(View()), View(), outcome, id, kind, named, given, me)
      ensures Inv(View())
    {
      CreateAnswers(View(), id, kind, named, given, me);
      CreateInv(View(), id, kind, named, given, me);
      if given == [] {
        return BadRequest;
      }
      var participantIds := given;
      if me !in participantIds {
        participantIds := participantIds + [me];
      }
      if |users * Elements(participantIds)| != |participantIds| {
        return BadRequest;
      }
      if kind == Direct {
        if |participantIds| != 2 {
          return BadRequest;
        }
        var found, c := FindExistingDirectConversation(participantIds[0], participantIds[1]);
        if found {
          return Existing(c);
        }
      }
      if kind == Group && (!named || |participantIds| < 2) {
        return BadRequest;
      }
      convs := convs[id := Conv(kind, FirstRows(kind, participantIds))];
      return Made(id);
    }

    method Add(c: ConvId, actor: UserId, newcomer: UserId) returns (outcome: Outcome)
      modifies this
      ensures (View(), outcome) == AddParticipant(old(View()), c, actor, newcomer)
    {
      if c !in convs || actor !in convs[c].rows {
        return Forbidden;
      }
      var conv := convs[c];
      if conv.kind != Group {
        return BadRequest;
      }
      if conv.rows[actor].role != Admin && conv.rows[actor].role != Owner {
        return Forbidden;
      }
      if newcomer in conv.rows && !conv.rows[newcomer].left {
        return BadRequest;
      }
      if newcomer !in conv.rows && newcomer !in users {
        return ServerError;
      }
      var row := if newcomer in conv.rows then conv.rows[newcomer].(left := false) else Row(Member, false);
      convs := convs[c := conv.(rows := conv.rows[newcomer := row])];
      return Made(c);
    }

    method LeaveConversation(c: ConvId, u: UserId) returns (outcome: Outcome)
      modifies this
      ensures (View(), outcome) == Leave(old(View()), c, u)
    {
      if c !in convs || u !in convs[c].rows {
        return NotFound;
      }
      if convs[c].rows[u].left {
        return BadRequest;
      }
      convs := convs[c := convs[c].(rows := convs[c].rows[u := convs[c].rows[u].(left := true)])];
      return Made(c);
    }
  }
}
