/** packages/audit/src/ledger.ts: audit entries and what their hash covers. */
module AuditEntry {
  import opened Wrappers
  import opened Json
  import opened JsonTree
  import opened CanonicalJson

  datatype Outcome = Success | Failure | Denied | Pending

  datatype Actor = Actor(
    userId: Option<Text>, agentId: Option<Text>, orgId: Option<Text>, projectId: Option<Text>, kind: Option<Text>)

  /** Everything the hash of an entry covers. */
  datatype Content = Content(
    id: Text,
    sequence: int,
    timestamp: int,
    actor: Actor,
    action: Text,
    resource: Option<Text>,
    outcome: Outcome,
    correlationId: Option<Text>,
    details: Option<seq<Member>>,
    previousHash: Text)

  datatype Entry = Entry(content: Content, hash: Text)

  type Digest = Text -> Text

  /** The hash function is taken to be free of collisions. */
  ghost predicate Injective(h: Digest) {
    forall x, y :: h(x) == h(y) ==> x == y
  }

  // --- hashEntry ---------------------------------------------------------------------------

  const ID: Text := [105, 100]
  const SEQUENCE: Text := [115, 101, 113, 117, 101, 110, 99, 101]
  const TIMESTAMP: Text := [116, 105, 109, 101, 115, 116, 97, 109, 112]
  const ACTOR: Text := [97, 99, 116, 111, 114]
  const ACTION: Text := [97, 99, 116, 105, 111, 110]
  const RESOURCE: Text := [114, 101, 115, 111, 117, 114, 99, 101]
  const OUTCOME: Text := [111, 117, 116, 99, 111, 109, 101]
  const CORRELATION_ID: Text := [99, 111, 114, 114, 101, 108, 97, 116, 105, 111, 110, 73, 100]
  const DETAILS: Text := [100, 101, 116, 97, 105, 108, 115]
  const PREVIOUS_HASH: Text := [112, 114, 101, 118, 105, 111, 117, 115, 72, 97, 115, 104]
  const USER_ID: Text := [117, 115, 101, 114, 73, 100]
  const AGENT_ID: Text := [97, 103, 101, 110, 116, 73, 100]
  const ORG_ID: Text := [111, 114, 103, 73, 100]
  const PROJECT_ID: Text := [112, 114, 111, 106, 101, 99, 116, 73, 100]
  const KIND: Text := [107, 105, 110, 100]

  /** An optional field of the actor: absent means undefined, so dropped. */
  function Optional(t: Option<Text>): Json {
    if t.Some? then Str(t.value) else Undefined
  }

  /** `x ?? null`. */
  function OrNull(t: Option<Text>): Json {
    if t.Some? then Str(t.value) else Null
  }

  function OutcomeName(o: Outcome): Text {
    match o
    case Success => [115, 117, 99, 99, 101, 115, 115]
    case Failure => [102, 97, 105, 108, 117, 114, 101]
    case Denied => [100, 101, 110, 105, 101, 100]
    case Pending => [112, 101, 110, 100, 105, 110, 103]
  }

  function ActorMembers(a: Actor): seq<Member> {
    [Member(USER_ID, Optional(a.userId)), Member(AGENT_ID, Optional(a.agentId)), Member(ORG_ID, Optional(a.orgId)),
     Member(PROJECT_ID, Optional(a.projectId)), Member(KIND, Optional(a.kind))]
  }

  function ContentMembers(c: Content): seq<Member> {
    [Member(ID, Str(c.id)), Member(SEQUENCE, Num(c.sequence)), Member(TIMESTAMP, Num(c.timestamp)),
     Member(ACTOR, Obj(ActorMembers(c.actor))), Member(ACTION, Str(c.action)), Member(RESOURCE, OrNull(c.resource)),
     Member(OUTCOME, Str(OutcomeName(c.outcome))), Member(CORRELATION_ID, OrNull(c.correlationId)),
     Member(DETAILS, if c.details.Some? then Obj(c.details.value) else Null),
       Member(PREVIOUS_HASH, Str(c.previousHash))]
  }

  function HashEntry(h: Digest, c: Content): Text {
    h(Canonical(Obj(ContentMembers(c))))
  }

  ghost predicate WellformedContent(c: Content) {
    c.details.Some? ==> Wellformed(Obj(c.details.value))
  }

  /** Equal in every field, with details equal up to key order and undefined members. */
  ghost predicate SameContent(a: Content, b: Content) {
    && a.(details := None) == b.(details := None)
    && a.details.Some? == b.details.Some?
    && (a.details.Some? ==> Meaning(Obj(a.details.value)) == Meaning(Obj(b.details.value)))
  }

  // Two objects with the same keys in the same places agree exactly when their members do.

  ghost predicate SameKeys(a: seq<Member>, b: seq<Member>) {
    |a| == |b| && forall i :: 0 <= i < |a| ==> a[i].key == b[i].key
  }

  /** Equal as property values, an undefined one standing for no property. */
  ghost predicate SameProperty(a: Json, b: Json) {
    a.Undefined? == b.Undefined? && Meaning(a) == Meaning(b)
  }

  lemma LookupMember(ms: seq<Member>, i: nat)
    requires DistinctNames(ms) && i < |ms|
    ensures if ms[i].value.Undefined? then ms[i].key !in MembersMeaning(ms)
      else Holds(MembersMeaning(ms), ms[i].key, Meaning(ms[i].value))
  {
    MembersMeaningAt(ms, ms[i].key, Meaning(ms[i].value));
    if ms[i].value.Undefined? && ms[i].key in MembersMeaning(ms) {
      MembersMeaningAt(ms, ms[i].key, MembersMeaning(ms)[ms[i].key]);
    }
  }

  lemma SameObjectSameMembers(a: seq<Member>, b: seq<Member>)
    requires DistinctNames(a) && DistinctNames(b) && SameKeys(a, b) && MembersMeaning(a) == MembersMeaning(b)
    ensures forall i :: 0 <= i < |a| ==> SameProperty(a[i].value, b[i].value)
  {
    forall i | 0 <= i < |a| ensures SameProperty(a[i].value, b[i].value) {
      LookupMember(a, i);
      LookupMember(b, i);
    }
  }

  lemma {:induction false} SameMembersSameObject(a: seq<Member>, b: seq<Member>)
    requires SameKeys(a, b) && forall i :: 0 <= i < |a| ==> SameProperty(a[i].value, b[i].value)
    ensures MembersMeaning(a) == MembersMeaning(b)
  {
    if a != [] {
      SameMembersSameObject(a[1..], b[1..]);
    }
  }

  lemma ActorNames(a: Actor)
    ensures DistinctNames(ActorMembers(a)) && Wellformed(Obj(ActorMembers(a)))
  {
  }

  lemma ContentNames(c: Content)
    requires WellformedContent(c)
    ensures DistinctNames(ContentMembers(c)) && Wellformed(Obj(ContentMembers(c)))
  {
    ActorNames(c.actor);
  }

  lemma SameActorMembers(a: Actor, b: Actor)
    requires MembersMeaning(ActorMembers(a)) == MembersMeaning(ActorMembers(b))
    ensures a == b
  {
    ActorNames(a);
    ActorNames(b);
    var s, t := ActorMembers(a), ActorMembers(b);
    SameObjectSameMembers(s, t);
    assert SameProperty(s[0].value, t[0].value) && SameProperty(s[1].value, t[1].value)
      && SameProperty(s[2].value, t[2].value);
    assert SameProperty(s[3].value, t[3].value) && SameProperty(s[4].value, t[4].value);
  }

  /** The names of the fields and outcomes, letter by letter. */
  lemma NamesAreSpelt()
    ensures ID == Units("id") && SEQUENCE == Units("sequence") && TIMESTAMP == Units("timestamp")
    ensures ACTOR == Units("actor") && ACTION == Units("action") && RESOURCE == Units("resource")
    ensures OUTCOME == Units("outcome") && CORRELATION_ID == Units("correlationId") && DETAILS == Units("details")
    ensures PREVIOUS_HASH == Units("previousHash")
    ensures USER_ID == Units("userId") && AGENT_ID == Units("agentId") && ORG_ID == Units("orgId")
    ensures PROJECT_ID == Units("projectId") && KIND == Units("kind")
    ensures OutcomeName(Outcome.Success) == Units("success") && OutcomeName(Outcome.Failure) == Units("failure")
    ensures OutcomeName(Denied) == Units("denied") && OutcomeName(Pending) == Units("pending")
  {
  }

  /** `null` for what is not there. */
  function TextOrNull(t: Option<Text>): Plain {
    if t.Some? then PStr(t.value) else PNull
  }

  /** The hashed object holds each field under its own name, and an absent one as null. */
  lemma HashedFields(c: Content)
    requires WellformedContent(c)
    ensures var m := MembersMeaning(ContentMembers(c));
      && Holds(m, ID, PStr(c.id)) && Holds(m, SEQUENCE, PNum(c.sequence)) && Holds(m, TIMESTAMP, PNum(c.timestamp))
      && Holds(m, ACTOR, PObj(MembersMeaning(ActorMembers(c.actor)))) && Holds(m, ACTION, PStr(c.action))
  {
    ContentNames(c);
    var ms := ContentMembers(c);
    LookupMember(ms, 0);
    LookupMember(ms, 1);
    LookupMember(ms, 2);
    LookupMember(ms, 3);
    LookupMember(ms, 4);
  }

  lemma OtherHashedFields(c: Content)
    requires WellformedContent(c)
    ensures var m := MembersMeaning(ContentMembers(c));
      && Holds(m, RESOURCE, TextOrNull(c.resource)) && Holds(m, OUTCOME, PStr(OutcomeName(c.outcome)))
      && Holds(m, CORRELATION_ID, TextOrNull(c.correlationId))
      && Holds(m, DETAILS, if c.details.Some? then PObj(MembersMeaning(c.details.value)) else PNull)
      && Holds(m, PREVIOUS_HASH, PStr(c.previousHash))
  {
    ContentNames(c);
    var ms := ContentMembers(c);
    LookupMember(ms, 5);
    LookupMember(ms, 6);
    LookupMember(ms, 7);
    LookupMember(ms, 8);
    LookupMember(ms, 9);
  }

  /** The actor's part holds what is known of the actor and nothing else. */
  lemma HashedActor(a: Actor)
    ensures var m := MembersMeaning(ActorMembers(a));
      && KeptIn(m, USER_ID, a.userId) && KeptIn(m, AGENT_ID, a.agentId) && KeptIn(m, ORG_ID, a.orgId)
      && KeptIn(m, PROJECT_ID, a.projectId) && KeptIn(m, KIND, a.kind)
  {
    ActorNames(a);
    var ms := ActorMembers(a);
    forall i | 0 <= i < 5
      ensures if ms[i].value.Undefined? then ms[i].key !in MembersMeaning(ms)
        else Holds(MembersMeaning(ms), ms[i].key, Meaning(ms[i].value))
    {
      LookupMember(ms, i);
    }
    assert ms[0].key == USER_ID && ms[1].key == AGENT_ID && ms[2].key == ORG_ID;
    assert ms[3].key == PROJECT_ID && ms[4].key == KIND;
  }

  ghost predicate KeptIn(m: map<Text, Plain>, name: Text, field: Option<Text>) {
    if field.Some? then Holds(m, name, PStr(field.value)) else name !in m
  }

  lemma OutcomeNamesDiffer(a: Outcome, b: Outcome)
    requires OutcomeName(a) == OutcomeName(b)
    ensures a == b
  {
    assert OutcomeName(a)[0] == OutcomeName(b)[0] && |OutcomeName(a)| == |OutcomeName(b)|;
  }

  lemma SameFields(a: Content, b: Content)
    requires forall i :: 0 <= i < 10 ==> SameProperty(ContentMembers(a)[i].value, ContentMembers(b)[i].value)
    ensures SameContent(a, b)
  {
    SameFirstFields(a, b);
    SameOtherFields(a, b);
  }

  lemma SameFirstFields(a: Content, b: Content)
    requires forall i :: 0 <= i < 5 ==> SameProperty(ContentMembers(a)[i].value, ContentMembers(b)[i].value)
    ensures a.id == b.id && a.sequence == b.sequence && a.timestamp == b.timestamp && a.actor == b.actor
    ensures a.action == b.action
  {
    var s, t := ContentMembers(a), ContentMembers(b);
    assert SameProperty(s[0].value, t[0].value) && SameProperty(s[1].value, t[1].value);
    assert SameProperty(s[2].value, t[2].value) && SameProperty(s[3].value, t[3].value);
    assert SameProperty(s[4].value, t[4].value);
    SameActorMembers(a.actor, b.actor);
  }

  lemma SameOtherFields(a: Content, b: Content)
    requires forall i :: 5 <= i < 10 ==> SameProperty(ContentMembers(a)[i].value, ContentMembers(b)[i].value)
    ensures a.resource == b.resource && a.outcome == b.outcome && a.correlationId == b.correlationId
    ensures a.details.Some? == b.details.Some? && a.previousHash == b.previousHash
    ensures a.details.Some? ==> Meaning(Obj(a.details.value)) == Meaning(Obj(b.details.value))
  {
    var s, t := ContentMembers(a), ContentMembers(b);
    assert SameProperty(s[5].value, t[5].value) && SameProperty(s[6].value, t[6].value);
    assert SameProperty(s[7].value, t[7].value) && SameProperty(s[8].value, t[8].value);
    assert SameProperty(s[9].value, t[9].value);
    OutcomeNamesDiffer(a.outcome, b.outcome);
  }

  lemma MembersAgree(a: Content, b: Content, i: nat)
    requires SameContent(a, b) && i < 10
    ensures SameProperty(ContentMembers(a)[i].value, ContentMembers(b)[i].value)
  {
    var s, t := ContentMembers(a), ContentMembers(b);
    if i == 8 {
      assert SameProperty(s[8].value, t[8].value);
    } else {
      assert a.(details := None) == b.(details := None);
      assert s[i] == t[i];
    }
  }

  lemma ContentKeys(a: Content, b: Content)
    ensures SameKeys(ContentMembers(a), ContentMembers(b))
  {
  }

  lemma SameHashSameContent(a: Content, b: Content)
    requires WellformedContent(a) && WellformedContent(b)
    requires MembersMeaning(ContentMembers(a)) == MembersMeaning(ContentMembers(b))
    ensures SameContent(a, b)
  {
    ContentNames(a);
    ContentNames(b);
    ContentKeys(a, b);
    SameObjectSameMembers(ContentMembers(a), ContentMembers(b));
    SameFields(a, b);
  }

  lemma SameContentSameHash(a: Content, b: Content)
    requires SameContent(a, b)
    ensures MembersMeaning(ContentMembers(a)) == MembersMeaning(ContentMembers(b))
  {
    ContentKeys(a, b);
    forall i | 0 <= i < 10 ensures SameProperty(ContentMembers(a)[i].value, ContentMembers(b)[i].value) {
      MembersAgree(a, b, i);
    }
    SameMembersSameObject(ContentMembers(a), ContentMembers(b));
  }

  /** The hash of an entry commits to its whole content and to nothing else. */
  lemma HashCommitsToContent(h: Digest, a: Content, b: Content)
    requires Injective(h) && WellformedContent(a) && WellformedContent(b)
    ensures HashEntry(h, a) == HashEntry(h, b) <==> SameContent(a, b)
  {
    ContentNames(a);
    ContentNames(b);
    CanonicalDecidesMeaning(Obj(ContentMembers(a)), Obj(ContentMembers(b)));
    if HashEntry(h, a) == HashEntry(h, b) {
      SameHashSameContent(a, b);
    }
    if SameContent(a, b) {
      SameContentSameHash(a, b);
    }
  }

  type Hasher = Content -> Text

  /** `hashEntry` over the chosen digest. */
  function Hashing(h: Digest): Hasher {
    c => HashEntry(h, c)
  }

  /** Equal hashes mean equal contents, and no hash is the empty string the first entry links to. */
  ghost predicate Commits(hash: Hasher) {
    && (forall a, b :: WellformedContent(a) && WellformedContent(b) && hash(a) == hash(b) ==> SameContent(a, b))
    && (forall c :: hash(c) != [])
  }

  lemma HashingCommits(h: Digest)
    requires Injective(h) && forall t :: h(t) != []
    ensures Commits(Hashing(h))
  {
    forall a, b | WellformedContent(a) && WellformedContent(b) && Hashing(h)(a) == Hashing(h)(b)
      ensures SameContent(a, b)
    {
      HashCommitsToContent(h, a, b);
    }
  }
}
