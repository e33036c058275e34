/** Authorisation of a client: the panel scans the user table; an agent looks the credential up in
    the map it rebuilds from the last sync. Byte counts and gigabytes are exact. */
module LocalAuth {
  import opened Basics
  import opened Text

  const GIGABYTE: nat := 0x4000_0000

  datatype User = User(
    id: nat, username: string, credential: string, status: string,
    quotaGb: nat, usedGb: nat, usedBytes: nat, expires: Option<int>)

  datatype Reason = Unknown | Suspended | Expired | QuotaUsed | GuardActive

  datatype Decision = Accept(username: string) | Reject(reason: Reason)

  function NormalStatus(status: string): string {
    if Trim(status) == "suspended" then "suspended" else "active"
  }

  // ---------------------------------------------------------------- the panel

  function Find(users: seq<User>, credential: string): Option<User> {
    if users == [] then None
    else if users[0].credential == credential then Some(users[0])
    else Find(users[1..], credential)
  }

  function PanelVerdict(u: User, now: int): Decision {
    if NormalStatus(u.status) != "active" then Reject(Suspended)
    else if u.expires.Some? && u.expires.value <= now then Reject(Expired)
    else if u.quotaGb > 0 && u.usedBytes >= u.quotaGb * GIGABYTE then Reject(QuotaUsed)
    else Accept(u.username)
  }

  function PanelDecision(users: seq<User>, credential: string, now: int): Decision {
    match Find(users, credential)
    case None => Reject(Unknown)
    case Some(u) => PanelVerdict(u, now)
  }

  method AuthorizeClient(users: seq<User>, credential: string, now: int) returns (d: Decision)
    ensures d == PanelDecision(users, credential, now)
  {
    for i := 0 to |users|
      invariant Find(users, credential) == Find(users[i..], credential)
    {
      var user := users[i];
      if user.credential != credential {
        continue;
      }
      if NormalStatus(user.status) != "active" {
        return Reject(Suspended);
      }
      if user.expires.Some? && !(user.expires.value > now) {
        return Reject(Expired);
      }
      if user.quotaGb > 0 && user.usedBytes >= user.quotaGb * GIGABYTE {
        return Reject(QuotaUsed);
      }
      return Accept(user.username);
    }
    d := Reject(Unknown);
  }

  // ---------------------------------------------------------------- the sync

  /** One entry of the sync payload; used gigabytes are rounded to hundredths. */
  datatype Entry = Entry(
    username: string, credential: string, status: string, quota: nat, used: real,
    expires: Option<int>)

  /** math.Round on a value that is not negative: halves go up. */
  function Round(x: real): int
    requires x >= 0.0
  {
    (x + 0.5).Floor
  }

  function RoundedGigabytes(bytes: nat, fallback: nat): (gb: real)
    ensures gb >= 0.0
  {
    if bytes == 0 then fallback as real
    else Round(bytes as real / GIGABYTE as real * 100.0) as real / 100.0
  }

  function EntryOf(u: User): Entry {
    Entry(u.username, u.credential, NormalStatus(u.status), u.quotaGb,
          RoundedGigabytes(u.usedBytes, u.usedGb), u.expires)
  }

  datatype LocalUser = LocalUser(
    username: string, credential: string, status: string, quotaGb: int, usedGb: int,
    expires: Option<int>)

  /** The agent's reading of an entry: strings trimmed, the used gigabytes cut to an integer. */
  function LocalOf(e: Entry): LocalUser {
    LocalUser(Trim(e.username), Trim(e.credential), Trim(e.status), e.quota, e.used.Floor, e.expires)
  }

  function Synced(u: User): LocalUser { LocalOf(EntryOf(u)) }

  /** The map after a sync: blank credentials are skipped and later entries win. */
  function ByCredential(users: seq<User>): map<string, LocalUser> {
    if users == [] then map[]
    else
      var rest := ByCredential(users[..|users| - 1]);
      var last := Synced(users[|users| - 1]);
      if Trim(last.credential) == "" then rest else rest[Trim(last.credential) := last]
  }

  function AgentVerdict(u: LocalUser, now: int): Decision {
    if Trim(u.status) != "active" then Reject(Suspended)
    else if u.expires.Some? && u.expires.value <= now then Reject(Expired)
    else if u.quotaGb > 0 && u.usedGb >= u.quotaGb then Reject(QuotaUsed)
    else Accept(u.username)
  }

  class AuthCache {
    var users: map<string, LocalUser>
    var guardActive: bool

    constructor ()
      ensures users == map[] && !guardActive
    {
      users, guardActive := map[], false;
    }

    /** Builds the map from the payload of a sync and swaps it in. */
    method SyncFrom(table: seq<User>)
      modifies this
      ensures users == ByCredential(table) && guardActive == old(guardActive)
    {
      var rebuilt: map<string, LocalUser> := map[];
      for i := 0 to |table|
        invariant rebuilt == ByCredential(table[..i])
      {
        assert table[..i + 1][..i] == table[..i];
        var user := Synced(table[i]);
        var credential := Trim(user.credential);
        if credential == "" {
          continue;
        }
        rebuilt := rebuilt[credential := user];
      }
      assert table[..|table|] == table;
      users := rebuilt;
    }

    method Authorize(presented: string, now: int) returns (d: Decision)
      ensures d == AgentDecision(users, guardActive, presented, now)
    {
      if guardActive {
        return Reject(GuardActive);
      }
      var credential := Trim(presented);
      if credential == "" || credential !in users {
        return Reject(Unknown);
      }
      var user := users[credential];
      if Trim(user.status) != "active" {
        return Reject(Suspended);
      }
      if user.expires.Some? && !(user.expires.value > now) {
        return Reject(Expired);
      }
      if user.quotaGb > 0 && user.usedGb >= user.quotaGb {
        return Reject(QuotaUsed);
      }
      return Accept(user.username);
    }
  }

  function AgentDecision(
    users: map<string, LocalUser>, guardActive: bool, presented: string, now: int): Decision
  {
    if guardActive then Reject(GuardActive)
    else if Trim(presented) == "" || Trim(presented) !in users then Reject(Unknown)
    else AgentVerdict(users[Trim(presented)], now)
  }

  // ---------------------------------------------------------------- agreement

  predicate UniqueCredentials(users: seq<User>) {
    forall i, j | 0 <= i < j < |users| :: users[i].credential != users[j].credential
  }

  /** What normalizeUserPayload and the accounting leave in a row. */
  predicate WellKept(u: User) {
    && Trimmed(u.username) && Trimmed(u.credential) && u.credential != ""
    && (u.usedBytes == 0 ==> u.usedGb == 0)
  }

  /** Within half a hundredth of a gigabyte below the quota: (q - 0.005) * 2^30 <= used < q * 2^30. */
  predicate JustBelowQuota(u: User) {
    && u.quotaGb > 0
    && (200 * u.quotaGb - 1) * GIGABYTE <= 200 * u.usedBytes
    && u.usedBytes < u.quotaGb * GIGABYTE
  }

  lemma RoundingMovesTheQuota(u: User)
    requires u.quotaGb > 0 && (u.usedBytes == 0 ==> u.usedGb == 0)
    ensures RoundedGigabytes(u.usedBytes, u.usedGb).Floor >= u.quotaGb
       <==> u.usedBytes >= u.quotaGb * GIGABYTE || JustBelowQuota(u)
  {
    var x := u.usedBytes as real / GIGABYTE as real;
    var r := Round(x * 100.0);
    if u.usedBytes > 0 {
      assert (r as real / 100.0).Floor >= u.quotaGb <==> r >= 100 * u.quotaGb;
    }
  }

  lemma {:induction false} FindByMembership(users: seq<User>, credential: string)
    ensures match Find(users, credential)
            case Some(u) => u in users && u.credential == credential
            case None => forall u <- users :: u.credential != credential
  {
    if users != [] && users[0].credential != credential {
      FindByMembership(users[1..], credential);
    }
  }

  lemma {:induction false} MapByMembership(users: seq<User>)
    requires UniqueCredentials(users) && forall u <- users :: WellKept(u)
    ensures forall u <- users ::
              u.credential in ByCredential(users) && ByCredential(users)[u.credential] == Synced(u)
    ensures forall c <- ByCredential(users) :: exists u <- users :: u.credential == c
  {
    if users != [] {
      var front, last := users[..|users| - 1], users[|users| - 1];
      MapByMembership(front);
      TrimClean(last.credential);
      assert last in users;
      forall u <- users
        ensures u.credential in ByCredential(users) && ByCredential(users)[u.credential] == Synced(u)
      {
        if u != last {
          assert u in front;
        }
      }
      forall c <- ByCredential(users) ensures exists u <- users :: u.credential == c {
        if c != last.credential {
          var u :| u in front && u.credential == c;
          assert u in users;
        }
      }
    }
  }

  lemma VerdictsAgree(u: User, now: int)
    requires WellKept(u)
    ensures AgentVerdict(Synced(u), now)
         == if PanelVerdict(u, now).Accept? && JustBelowQuota(u) then Reject(QuotaUsed)
            else PanelVerdict(u, now)
  {
    TrimClean(u.username);
    TrimClean(NormalStatus(u.status));
    if u.quotaGb > 0 {
      RoundingMovesTheQuota(u);
    }
  }

  /** After a sync, with the heartbeat guard inactive, the agent gives the panel's decision for
      every credential and time, except that it already rejects a user whose traffic is less than
      half a hundredth of a gigabyte below the quota. */
  lemma AgentAgreesWithPanel(users: seq<User>, presented: string, now: int)
    requires UniqueCredentials(users) && forall u <- users :: WellKept(u)
    ensures var panel := PanelDecision(users, Trim(presented), now);
            var found := Find(users, Trim(presented));
            AgentDecision(ByCredential(users), false, presented, now)
            == if panel.Accept? && found.Some? && JustBelowQuota(found.value) then Reject(QuotaUsed)
               else panel
  {
    var c := Trim(presented);
    FindByMembership(users, c);
    MapByMembership(users);
    match Find(users, c)
    case None =>
    case Some(u) =>
      VerdictsAgree(u, now);
      assert WellKept(u);
  }

  /** An engaged heartbeat guard turns everyone away, whatever the table, the credential and the
      time. */
  lemma GuardRejectsEveryone(users: map<string, LocalUser>, presented: string, now: int)
    ensures AgentDecision(users, true, presented, now) == Reject(GuardActive)
    ensures AgentDecision(users, false, presented, now) != Reject(GuardActive)
  {
  }

  /** Whom each side accepts, in terms of the user table alone. The agent accepts only while its guard
      is off, and its limit is half a hundredth of a gigabyte lower than the quota. */
  lemma AcceptedExactly(
    users: seq<User>, guardActive: bool, presented: string, now: int, name: string)
    requires UniqueCredentials(users) && forall u <- users :: WellKept(u)
    ensures PanelDecision(users, Trim(presented), now) == Accept(name)
       <==> exists u <- users ::
              && u.credential == Trim(presented) && u.username == name
              && Trim(u.status) != "suspended" && (u.expires.Some? ==> now < u.expires.value)
              && (u.quotaGb > 0 ==> u.usedBytes < u.quotaGb * 0x4000_0000)
    ensures AgentDecision(ByCredential(users), guardActive, presented, now) == Accept(name)
       <==> !guardActive && exists u <- users ::
              && u.credential == Trim(presented) && u.username == name
              && Trim(u.status) != "suspended" && (u.expires.Some? ==> now < u.expires.value)
              && (u.quotaGb > 0 ==> 200 * u.usedBytes < (200 * u.quotaGb - 1) * 0x4000_0000)
  {
    AgentAgreesWithPanel(users, presented, now);
    OnlyUserFound(users, Trim(presented));
  }

  lemma OnlyUserFound(users: seq<User>, credential: string)
    requires UniqueCredentials(users)
    ensures forall u <- users | u.credential == credential :: Find(users, credential) == Some(u)
    ensures Find(users, credential).Some? ==>
              Find(users, credential).value in users
              && Find(users, credential).value.credential == credential
  {
    FindByMembership(users, credential);
    forall u <- users | u.credential == credential ensures Find(users, credential) == Some(u) {
      var i :| 0 <= i < |users| && users[i] == u;
      var j :| 0 <= j < |users| && users[j] == Find(users, credential).value;
    }
  }

  /** Why each side rejects a user of the table: a suspension comes first, then the expiry, then the
      quota; and a credential nobody has is unknown. */
  lemma RejectedExactly(users: seq<User>, presented: string, now: int)
    requires UniqueCredentials(users) && forall u <- users :: WellKept(u)
    ensures var panel := PanelDecision(users, Trim(presented), now);
            var agent := AgentDecision(ByCredential(users), false, presented, now);
            && (panel == Reject(Unknown) <==> forall u <- users :: u.credential != Trim(presented))
            && (agent == Reject(Unknown) <==> panel == Reject(Unknown))
            && (forall u <- users | u.credential == Trim(presented) ::
                  && (panel == Reject(Suspended) <==> Trim(u.status) == "suspended")
                  && (panel == Reject(Expired)
                      <==> Trim(u.status) != "suspended" && u.expires.Some? && u.expires.value <= now)
                  && (agent == Reject(Suspended) <==> panel == Reject(Suspended))
                  && (agent == Reject(Expired) <==> panel == Reject(Expired))
                  && (panel == Reject(QuotaUsed) ==> agent == Reject(QuotaUsed)))
  {
    AgentAgreesWithPanel(users, presented, now);
    OnlyUserFound(users, Trim(presented));
  }

  /** Uniqueness is needed: of two users with one credential the scan takes the first row and the
      map keeps the last, so that with different names the two sides never accept the same user. */
  lemma DuplicateCredentialsDisagree(first: User, second: User, now: int)
    requires WellKept(first) && WellKept(second) && first.credential == second.credential
    requires first.username != second.username
    ensures var panel := PanelDecision([first, second], first.credential, now);
            var agent := AgentDecision(ByCredential([first, second]), false, first.credential, now);
            && panel == PanelVerdict(first, now) && agent == AgentVerdict(Synced(second), now)
            && !(panel.Accept? && agent == panel)
  {
    TrimClean(first.credential);
    TrimClean(second.username);
    assert [first, second][..1] == [first] && [first][..0] == [];
    assert ByCredential([first, second])[first.credential] == Synced(second);
  }

  // ---------------------------------------------------------------- keeping credentials unique

  /** Looks for another row with the credential; ignore is the id of the row being edited, or 0. */
  method AssertUniqueCredential(users: seq<User>, credential: string, ignore: nat)
    returns (ok: bool)
    ensures ok <==> forall u <- users :: u.credential == credential ==> ignore > 0 && u.id == ignore
  {
    for i := 0 to |users|
      invariant forall k | 0 <= k < i ::
                  users[k].credential == credential ==> ignore > 0 && users[k].id == ignore
    {
      if ignore > 0 && users[i].id == ignore {
        continue;
      }
      if users[i].credential == credential {
        return false;
      }
    }
    ok := true;
  }

  /** Storing a row, new or edited, whose credential passed the check keeps credentials unique. */
  lemma CheckedRowsStayUnique(users: seq<User>, row: User, at: nat)
    requires UniqueCredentials(users) && at <= |users|
    requires forall i, j | 0 <= i < j < |users| :: users[i].id != users[j].id
    requires at < |users| ==> users[at].id == row.id
    requires forall u <- users ::
               u.credential == row.credential ==> at < |users| && u.id == row.id
    ensures UniqueCredentials(if at < |users| then users[at := row] else users + [row])
  {
    forall k | 0 <= k < |users| && users[k].credential == row.credential ensures k == at {
      assert users[k] in users;
    }
  }
}
