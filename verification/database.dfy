/** The SQLite store: the `users`, `user_agent` and `user_phone` tables with
    their uniqueness constraints. */
module Database {

  datatype UserRow = UserRow(id: nat, email: string, telephone: string, hashedPassword: string)

  /** A `user_agent` row: a remote assistant id owned by a local user. */
  datatype AgentRow = AgentRow(id: nat, agentId: string, userId: nat)

  /** A `user_phone` row: a remote phone-number id owned by a local user. */
  datatype PhoneRow = PhoneRow(id: nat, phoneId: string, userId: nat)

  datatype Tables = Tables(users: seq<UserRow>, agents: seq<AgentRow>, phones: seq<PhoneRow>)

  predicate EmailsUnique(users: seq<UserRow>) {
    forall i, j :: 0 <= i < j < |users| ==> users[i].email != users[j].email
  }

  /** `telephone` is declared unique. */
  predicate TelephonesUnique(users: seq<UserRow>) {
    forall i, j :: 0 <= i < j < |users| ==> users[i].telephone != users[j].telephone
  }

  predicate UserIdsUnique(users: seq<UserRow>) {
    forall i, j :: 0 <= i < j < |users| ==> users[i].id != users[j].id
  }

  /** `agent_id` is declared unique. */
  predicate AgentIdsUnique(agents: seq<AgentRow>) {
    forall i, j :: 0 <= i < j < |agents| ==> agents[i].agentId != agents[j].agentId
  }

  /** `phone_id` is declared unique. */
  predicate PhoneIdsUnique(phones: seq<PhoneRow>) {
    forall i, j :: 0 <= i < j < |phones| ==> phones[i].phoneId != phones[j].phoneId
  }

  predicate WellFormed(t: Tables) {
    EmailsUnique(t.users) && TelephonesUnique(t.users) && UserIdsUnique(t.users) && AgentIdsUnique(t.agents) && PhoneIdsUnique(t.phones)
  }

  predicate HasAgentId(agents: seq<AgentRow>, agentId: string) {
    exists i :: 0 <= i < |agents| && agents[i].agentId == agentId
  }

  predicate HasPhoneId(phones: seq<PhoneRow>, phoneId: string) {
    exists i :: 0 <= i < |phones| && phones[i].phoneId == phoneId
  }

  predicate HasEmail(users: seq<UserRow>, email: string) {
    exists i :: 0 <= i < |users| && users[i].email == email
  }

  predicate HasTelephone(users: seq<UserRow>, telephone: string) {
    exists i :: 0 <= i < |users| && users[i].telephone == telephone
  }

  /** SQLite gives a new row the largest rowid in use plus one (1 in an empty table). */
  function NextId(ids: seq<nat>): (r: nat)
    ensures r > 0
    ensures forall i :: 0 <= i < |ids| ==> ids[i] < r
  {
    if ids == [] then 1
    else
      var rest := NextId(ids[1..]);
      if ids[0] < rest then rest else ids[0] + 1
  }

  /** The primary keys of a table, in row order. */
  function RowIds<R>(rows: seq<R>, id: R -> nat): (r: seq<nat>)
    ensures |r| == |rows| && forall i :: 0 <= i < |rows| ==> r[i] == id(rows[i])
  {
    seq(|rows|, i requires 0 <= i < |rows| => id(rows[i]))
  }

  /** The column accessors the generic table helpers take. */
  function UserRowId(u: UserRow): nat { u.id }
  function AgentRowId(a: AgentRow): nat { a.id }
  function PhoneRowId(p: PhoneRow): nat { p.id }
  function AgentOwner(a: AgentRow): nat { a.userId }
  function AgentKey(a: AgentRow): string { a.agentId }
  function PhoneOwner(p: PhoneRow): nat { p.userId }
  function PhoneKey(p: PhoneRow): string { p.phoneId }

  /** `DELETE FROM user_agent WHERE agent_id = :id`: the rows kept, in order. */
  function WithoutAgent(agents: seq<AgentRow>, agentId: string): (r: seq<AgentRow>)
    ensures |r| <= |agents|
    ensures forall i :: 0 <= i < |r| ==> r[i].agentId != agentId
  {
    if agents == [] then []
    else (if agents[0].agentId == agentId then [] else [agents[0]]) + WithoutAgent(agents[1..], agentId)
  }

  /** The `DELETE` removes exactly the rows with that agent id and keeps
      every other row, in order; by the uniqueness of `agent_id` it removes
      at most one row. */
  lemma {:induction false} WithoutAgentExact(agents: seq<AgentRow>, agentId: string)
    ensures forall row :: row in WithoutAgent(agents, agentId) <==> row in agents && row.agentId != agentId
    ensures AgentIdsUnique(agents) ==> |WithoutAgent(agents, agentId)| >= |agents| - 1
    ensures !HasAgentId(agents, agentId) ==> WithoutAgent(agents, agentId) == agents
  {
    if agents != [] {
      WithoutAgentExact(agents[1..], agentId);
      if AgentIdsUnique(agents) {
        assert AgentIdsUnique(agents[1..]) by {
          forall i, j | 0 <= i < j < |agents[1..]| ensures agents[1..][i].agentId != agents[1..][j].agentId {
            assert agents[1..][i] == agents[i + 1] && agents[1..][j] == agents[j + 1];
          }
        }
        if agents[0].agentId == agentId {
          assert !HasAgentId(agents[1..], agentId) by {
            forall i | 0 <= i < |agents[1..]| ensures agents[1..][i].agentId != agentId {
              assert agents[1..][i] == agents[i + 1];
            }
          }
        }
      }
      if !HasAgentId(agents, agentId) {
        assert agents[0].agentId != agentId;
        assert !HasAgentId(agents[1..], agentId) by {
          forall i | 0 <= i < |agents[1..]| ensures agents[1..][i].agentId != agentId {
            assert agents[1..][i] == agents[i + 1];
          }
        }
        assert agents == [agents[0]] + agents[1..];
      }
    }
  }

  lemma {:induction false} WithoutAgentUnique(agents: seq<AgentRow>, agentId: string)
    requires AgentIdsUnique(agents)
    ensures AgentIdsUnique(WithoutAgent(agents, agentId))
  {
    if agents != [] {
      var tail := agents[1..];
      assert AgentIdsUnique(tail) by {
        forall i, j | 0 <= i < j < |tail| ensures tail[i].agentId != tail[j].agentId {
          assert tail[i] == agents[i + 1] && tail[j] == agents[j + 1];
        }
      }
      WithoutAgentUnique(tail, agentId);
      WithoutAgentExact(tail, agentId);
      var rest := WithoutAgent(tail, agentId);
      if agents[0].agentId != agentId {
        var kept := WithoutAgent(agents, agentId);
        assert kept == [agents[0]] + rest;
        forall i, j | 0 <= i < j < |kept| ensures kept[i].agentId != kept[j].agentId {
          if i == 0 {
            assert kept[j] == rest[j - 1] && kept[j] in tail;
            var k :| 0 <= k < |tail| && tail[k] == kept[j];
            assert tail[k] == agents[k + 1];
          } else {
            assert kept[i] == rest[i - 1] && kept[j] == rest[j - 1];
          }
        }
      }
    }
  }

  /** One database session over the three tables. Each method is one
      statement followed by a commit. A statement that would fail is never
      issued by the controllers, which is how the model renders a rollback:
      nothing of the failed transaction persists. */
  class Db {
    var users: seq<UserRow>
    var agents: seq<AgentRow>
    var phones: seq<PhoneRow>

    ghost predicate Valid()
      reads this
    {
      WellFormed(State())
    }

    function State(): Tables
      reads this
    {
      Tables(users, agents, phones)
    }

    constructor ()
      ensures Valid() && State() == Tables([], [], [])
    {
      users, agents, phones := [], [], [];
    }

    /** `INSERT INTO user_agent (agent_id, user_id)`; the unique constraint
        on `agent_id` makes the statement fail when the id is already there. */
    method AddAgent(agentId: string, userId: nat)
      requires Valid() && !HasAgentId(agents, agentId)
      modifies this
      ensures Valid()
      ensures agents == old(agents) + [AgentRow(NextId(RowIds(old(agents), AgentRowId)), agentId, userId)]
      ensures users == old(users) && phones == old(phones)
    {
      agents := agents + [AgentRow(NextId(RowIds(agents, AgentRowId)), agentId, userId)];
    }

    /** `DELETE FROM user_agent WHERE agent_id = :id`, returning the row count. */
    method DeleteAgents(agentId: string) returns (deleted: nat)
      requires Valid()
      modifies this
      ensures Valid()
      ensures agents == WithoutAgent(old(agents), agentId)
      ensures deleted == |old(agents)| - |agents| && deleted <= 1
      ensures users == old(users) && phones == old(phones)
    {
      WithoutAgentExact(agents, agentId);
      var kept := WithoutAgent(agents, agentId);
      WithoutAgentUnique(agents, agentId);
      deleted := |agents| - |kept|;
      agents := kept;
    }

    /** `INSERT INTO users (email, telephone, hashed_password) RETURNING id`;
        `email` and `telephone` are unique. */
    method InsertUser(email: string, telephone: string, hashedPassword: string) returns (id: nat)
      requires Valid() && !HasEmail(users, email) && !HasTelephone(users, telephone)
      modifies this
      ensures Valid()
      ensures id == NextId(RowIds(old(users), UserRowId))
      ensures users == old(users) + [UserRow(id, email, telephone, hashedPassword)]
      ensures agents == old(agents) && phones == old(phones)
    {
      id := NextId(RowIds(users, UserRowId));
      users := users + [UserRow(id, email, telephone, hashedPassword)];
    }

    /** `INSERT INTO user_phone (phone_id, user_id)`; `phone_id` is unique. */
    method InsertUserPhone(phoneId: string, userId: nat)
      requires Valid() && !HasPhoneId(phones, phoneId)
      modifies this
      ensures Valid()
      ensures phones == old(phones) + [PhoneRow(NextId(RowIds(old(phones), PhoneRowId)), phoneId, userId)]
      ensures users == old(users) && agents == old(agents)
    {
      phones := phones + [PhoneRow(NextId(RowIds(phones, PhoneRowId)), phoneId, userId)];
    }
  }
}
