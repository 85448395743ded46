/** Refresh tokens: logins start chains, refreshes extend them under a row lock. */
module RefreshTokens {
  import opened Common

  /** A stored token. Hashes identify tokens, so a presented token is named by the id of its row. */
  datatype Token = Token(
    id: Id,
    user: Id,
    workspace: Id,
    expiresAt: Instant,
    version: int,
    createdAt: Instant,
    rotatedAt: Option<Instant>,
    revokedAt: Option<Instant>,
    replacedBy: Option<Id>)

  datatype Refusal = Reused | Expired | WorkspaceGone | Forbidden

  /** What the workspace loader finds for the bearer. */
  datatype Access = NoAccess | UnknownRole | Granted

  /** What a token says about its bearer, encrypted. */
  datatype Claims = Claims(user: Id, workspace: Id)

  /** The record issueTokenPair makes for a token with these claims. */
  function Issued(id: Id, claims: Claims, now: Instant, ttl: int): Token {
    Token(id, claims.user, claims.workspace, now + ttl, 1, now, None, None, None)
  }

  /** The claims a token was issued with. */
  function ClaimsOf(t: Token): Claims { Claims(t.user, t.workspace) }

  /** The checks of Refresh on the row it read, in order. */
  function Check(stored: Option<Token>, now: Instant, access: Access): Option<Refusal> {
    if stored.None? then Some(Reused)
    else
      var t := stored.value;
      if t.revokedAt.Some? || t.rotatedAt.Some? || t.replacedBy.Some? then Some(Reused)
      else if now > t.expiresAt then Some(Expired)
      else if access.NoAccess? then Some(WorkspaceGone)
      else if access.UnknownRole? then Some(Forbidden)
      else None
  }

  function Rotated(t: Token, replacement: Id, now: Instant): Token {
    t.(rotatedAt := Some(now), replacedBy := Some(replacement), version := t.version + 1)
  }

  function Lookup(rows: map<Id, Token>, id: Id): Option<Token> {
    if id in rows then Some(rows[id]) else None
  }

  /** Insert the replacement, issued for the claims, then rotate the presented token. */
  function Extended(rows: map<Id, Token>, stored: Token, claims: Claims,
                    replacement: Id, now: Instant, ttl: int): map<Id, Token>
    requires stored.id in rows
  {
    var inserted := rows[replacement := Issued(replacement, claims, now, ttl)];
    inserted[stored.id := Rotated(inserted[stored.id], replacement, now)]
  }

  /** The token is stored, and nobody has used or revoked it. */
  predicate Unspent(rows: map<Id, Token>, id: Id) {
    id in rows && rows[id].revokedAt == None && rows[id].rotatedAt == None && rows[id].replacedBy == None
  }

  /** And it has not expired; at its very expiry it still can be used. */
  predicate Usable(rows: map<Id, Token>, id: Id, now: Instant) {
    Unspent(rows, id) && now <= rows[id].expiresAt
  }

  /** What a refresh leaves: a new token for the bearer, valid for the lifetime from now on, the presented
      token spent on it, and everything else as it was. */
  predicate Replaced(rows: map<Id, Token>, rows': map<Id, Token>, presented: Id, claims: Claims, replacement: Id,
                     now: Instant, ttl: int)
    requires presented in rows
  {
    && rows'.Keys == rows.Keys + {replacement}
    && (forall id | id in rows :: id != presented ==> rows'[id] == rows[id])
    && (var t := rows'[replacement];
        && t.id == replacement && t.user == claims.user && t.workspace == claims.workspace
        && t.createdAt == now && t.expiresAt == now + ttl && t.version == 1
        && t.rotatedAt == None && t.revokedAt == None && t.replacedBy == None)
    && (var was, t := rows[presented], rows'[presented];
        && t.id == was.id && t.user == was.user && t.workspace == was.workspace
        && t.createdAt == was.createdAt && t.expiresAt == was.expiresAt && t.revokedAt == was.revokedAt
        && t.rotatedAt == Some(now) && t.replacedBy == Some(replacement) && t.version == was.version + 1)
  }

  /** The table with its statements, and the two transactions that use them. */
  class TokenTable {
    var rows: map<Id, Token>

    constructor ()
      ensures rows == map[]
    {
      rows := map[];
    }

    method Insert(t: Token)
      requires t.id !in rows
      modifies this
      ensures rows == old(rows)[t.id := t]
    {
      rows := rows[t.id := t];
    }

    method GetByHash(id: Id) returns (stored: Option<Token>)
      ensures stored == Lookup(rows, id)
    {
      stored := if id in rows then Some(rows[id]) else None;
    }

    method Rotate(id: Id, replacement: Id, now: Instant) returns (found: bool)
      modifies this
      ensures found <==> id in old(rows)
      ensures rows == if found then old(rows)[id := Rotated(old(rows)[id], replacement, now)] else old(rows)
    {
      found := id in rows;
      if found { rows := rows[id := Rotated(rows[id], replacement, now)]; }
    }

    method Login(id: Id, claims: Claims, now: Instant, ttl: int)
      requires id !in rows
      modifies this
      ensures rows == old(rows)[id := Issued(id, claims, now, ttl)]
    {
      Insert(Issued(id, claims, now, ttl));
    }

    /** The body of the refresh transaction, for the claims decrypted from the presented token;
        `replacement` is a new id. */
    method Refresh(presented: Id, claims: Claims, access: Access, replacement: Id, now: Instant, ttl: int)
      returns (refusal: Option<Refusal>)
      requires replacement !in rows
      requires forall id :: id in rows ==> rows[id].id == id
      modifies this
      ensures refusal == Check(Lookup(old(rows), presented), now, access)
      ensures rows == if refusal.Some? then old(rows)
                      else Extended(old(rows), old(rows)[presented], claims, replacement, now, ttl)
      ensures refusal.None? <==> Usable(old(rows), presented, now) && access.Granted?
      ensures refusal == Some(Reused) <==> !Unspent(old(rows), presented)
      ensures refusal == Some(Expired) <==>
                Unspent(old(rows), presented) && old(rows)[presented].expiresAt < now
      ensures refusal == Some(WorkspaceGone) <==> Usable(old(rows), presented, now) && access.NoAccess?
      ensures refusal == Some(Forbidden) <==> Usable(old(rows), presented, now) && access.UnknownRole?
      ensures refusal.None? ==> Replaced(old(rows), rows, presented, claims, replacement, now, ttl)
    {
      var stored := GetByHash(presented);
      if stored.None? { return Some(Reused); }
      var t := stored.value;
      if t.revokedAt.Some? || t.rotatedAt.Some? || t.replacedBy.Some? { return Some(Reused); }
      if now > t.expiresAt { return Some(Expired); }
      match access {
        case NoAccess => return Some(WorkspaceGone);
        case UnknownRole => return Some(Forbidden);
        case Granted =>
          Insert(Issued(replacement, claims, now, ttl));
          var found := Rotate(t.id, replacement, now);
          return None;
      }
    }
  }

  // ---- Concurrent refreshes ----

  datatype Stage =
    | Begun
    | Holding(stored: Token)
    | Approved(stored: Token)
    | Done(replacement: Id)
    | Refused(refusal: Refusal)
    | Aborted

  datatype Txn = Txn(presented: Id, claims: Claims, now: Instant, access: Access, stage: Stage)

  /** `locks` says which transaction holds the lock of a row. `chains` records, for each login,
      the tokens that descend from it, `origin` the login of each token, and `issuer` the refresh
      that issued it. */
  datatype State = State(
    rows: map<Id, Token>,
    txns: map<Id, Txn>,
    locks: map<Id, Id>,
    chains: map<Id, seq<Id>>,
    origin: map<Id, Id>,
    issuer: map<Id, Id>)

  const INIT := State(map[], map[], map[], map[], map[], map[])

  datatype Action =
    | Login(id: Id, claims: Claims, now: Instant, ttl: int)
    | Begin(txn: Id, presented: Id, claims: Claims, now: Instant, access: Access)
    | Lock(txn: Id)
    | Examine(txn: Id)
    | Commit(txn: Id, replacement: Id, ttl: int)
    | Abort(txn: Id)

  /** Nothing but the stage of a transaction changes. */
  predicate SameBearers(s: State, s': State) {
    && s'.txns.Keys == s.txns.Keys
    && (forall u :: u in s.txns ==>
          s'.txns[u].presented == s.txns[u].presented && s'.txns[u].claims == s.txns[u].claims)
  }

  predicate SameTokens(s: State, s': State) {
    s'.rows == s.rows && s'.chains == s.chains && s'.origin == s.origin && s'.issuer == s.issuer
  }

  function Move(s: State, t: Id, stage: Stage): (s': State)
    requires t in s.txns
    ensures SameBearers(s, s') && SameTokens(s, s')
  {
    s.(txns := s.txns[t := s.txns[t].(stage := stage)])
  }

  function LoginRow(s: State, t: Token): State {
    s.(rows := s.rows[t.id := t], chains := s.chains[t.id := [t.id]], origin := s.origin[t.id := t.id])
  }

  function LockRow(s: State, t: Id): (s': State)
    requires t in s.txns
    ensures SameBearers(s, s') && SameTokens(s, s')
  {
    var id := s.txns[t].presented;
    if id !in s.rows then Move(s, t, Refused(Reused))
    else if id in s.locks then s
    else Move(s, t, Holding(s.rows[id])).(locks := s.locks[id := t])
  }

  function ExamineRow(s: State, t: Id, stored: Token): (s': State)
    requires t in s.txns
    ensures SameBearers(s, s') && SameTokens(s, s')
  {
    var refusal := Check(Some(stored), s.txns[t].now, s.txns[t].access);
    if refusal.Some? then Move(s, t, Refused(refusal.value)).(locks := s.locks - {stored.id})
    else Move(s, t, Approved(stored))
  }

  /** An error rolls the transaction back, which frees its lock. */
  function AbortTxn(s: State, t: Id): (s': State)
    requires t in s.txns
    ensures SameBearers(s, s') && SameTokens(s, s')
  {
    var stage := s.txns[t].stage;
    if stage.Begun? then Move(s, t, Aborted)
    else if stage.Holding? || stage.Approved? then Move(s, t, Aborted).(locks := s.locks - {stage.stored.id})
    else s
  }

  function CommitRow(s: State, t: Id, stored: Token, replacement: Id, ttl: int): (s': State)
    requires t in s.txns && stored.id in s.rows && stored.id in s.origin && s.origin[stored.id] in s.chains
    ensures SameBearers(s, s')
  {
    var root := s.origin[stored.id];
    Move(s, t, Done(replacement)).(
      rows := Extended(s.rows, stored, s.txns[t].claims, replacement, s.txns[t].now, ttl),
      locks := s.locks - {stored.id},
      chains := s.chains[root := s.chains[root] + [replacement]],
      origin := s.origin[replacement := root],
      issuer := s.issuer[replacement := t])
  }

  /** A generated identifier: no token has it, and nobody has presented a token that has it. */
  predicate Unused(s: State, id: Id) {
    id !in s.rows && forall t :: t in s.txns ==> s.txns[t].presented != id
  }

  /** A token that decrypts yields the claims it was issued with. */
  predicate Authentic(s: State, presented: Id, claims: Claims) {
    presented in s.rows ==> claims == ClaimsOf(s.rows[presented])
  }

  /** One step. A step that is not possible in `s` leaves it unchanged. */
  function Step(s: State, a: Action): State {
    match a
    case Login(id, claims, now, ttl) =>
      if Unused(s, id) then LoginRow(s, Issued(id, claims, now, ttl)) else s
    case Begin(t, presented, claims, now, access) =>
      if t !in s.txns && Authentic(s, presented, claims) then
        s.(txns := s.txns[t := Txn(presented, claims, now, access, Begun)])
      else s
    case Lock(t) => if t in s.txns && s.txns[t].stage.Begun? then LockRow(s, t) else s
    case Examine(t) => if t in s.txns && s.txns[t].stage.Holding? then ExamineRow(s, t, s.txns[t].stage.stored) else s
    case Commit(t, replacement, ttl) =>
      if t in s.txns && s.txns[t].stage.Approved? && Unused(s, replacement)
         && s.txns[t].stage.stored.id in s.rows && s.txns[t].stage.stored.id in s.origin
         && s.origin[s.txns[t].stage.stored.id] in s.chains
      then CommitRow(s, t, s.txns[t].stage.stored, replacement, ttl) else s
    case Abort(t) => if t in s.txns then AbortTxn(s, t) else s
  }

  function Run(actions: seq<Action>): State {
    if actions == [] then INIT else Step(Run(actions[..|actions| - 1]), actions[|actions| - 1])
  }

  // ---- The invariant ----

  /** A token no refresh has used. */
  predicate Unrotated(t: Token) {
    t.rotatedAt.None? && t.replacedBy.None? && t.version == 1
  }

  predicate RotatedTo(t: Token, next: Id) {
    t.rotatedAt.Some? && t.replacedBy == Some(next) && t.version == 2
  }

  /** One login's chain: it begins with the login's token, each token but the last was rotated
      once, to the next, the last is unrotated, and all belong to the same user and workspace. */
  predicate ChainOk(rows: map<Id, Token>, origin: map<Id, Id>, root: Id, chain: seq<Id>) {
    && chain != [] && chain[0] == root
    && (forall k :: 0 <= k < |chain| ==> chain[k] in rows && chain[k] in origin && origin[chain[k]] == root)
    && (forall k :: 0 <= k < |chain| ==> rows[chain[k]].id == chain[k])
    && (forall k :: 0 <= k < |chain| ==>
          rows[chain[k]].user == rows[root].user && rows[chain[k]].workspace == rows[root].workspace)
    && (forall k :: 0 <= k < |chain| - 1 ==> RotatedTo(rows[chain[k]], chain[k + 1]))
    && Unrotated(rows[chain[|chain| - 1]])
    && (forall j, k :: 0 <= j < k < |chain| ==> chain[j] != chain[k])
  }

  ghost predicate ChainsOk(s: State) {
    && s.origin.Keys == s.rows.Keys
    && (forall root :: root in s.chains ==> ChainOk(s.rows, s.origin, root, s.chains[root]))
    && (forall id :: id in s.rows ==> s.origin[id] in s.chains && id in s.chains[s.origin[id]])
  }

  /** The row a transaction has locked is still the row it read. */
  predicate TxnOk(s: State, t: Id)
    requires t in s.txns
  {
    var txn := s.txns[t];
    match txn.stage
    case Holding(stored) => LockHeld(s, t, txn.presented, stored)
    case Approved(stored) => LockHeld(s, t, txn.presented, stored) && Check(Some(stored), txn.now, txn.access).None?
    case Done(replacement) =>
      && txn.presented in s.rows && RotatedTo(s.rows[txn.presented], replacement)
      && replacement in s.issuer && s.issuer[replacement] == t
    case _ => true
  }

  predicate LockHeld(s: State, t: Id, presented: Id, stored: Token) {
    && stored.id == presented && presented in s.rows && s.rows[presented] == stored
    && presented in s.locks && s.locks[presented] == t
  }

  ghost predicate TxnsOk(s: State) {
    && (forall t :: t in s.txns ==> TxnOk(s, t))
    && (forall id :: id in s.issuer ==> id in s.rows)
    && (forall id :: id in s.locks ==> id in s.rows)
  }

  /** Every refresh works for the bearer its token was issued to. */
  ghost predicate ClaimsOk(s: State) {
    forall t :: t in s.txns ==> Authentic(s, s.txns[t].presented, s.txns[t].claims)
  }

  ghost predicate Inv(s: State) {
    ChainsOk(s) && TxnsOk(s) && ClaimsOk(s)
  }

  lemma RowsAreKeyed(s: State, id: Id)
    requires ChainsOk(s) && id in s.rows
    ensures s.rows[id].id == id
    ensures Unrotated(s.rows[id]) || exists next :: next in s.rows && RotatedTo(s.rows[id], next)
  {
    var chain := s.chains[s.origin[id]];
    assert ChainOk(s.rows, s.origin, s.origin[id], chain);
    var k :| 0 <= k < |chain| && chain[k] == id;
    if k < |chain| - 1 { assert chain[k + 1] in s.rows; }
  }

  /** A chain stays as it is when none of its login's tokens changes. */
  lemma ChainFrame(rows: map<Id, Token>, origin: map<Id, Id>, rows': map<Id, Token>, origin': map<Id, Id>,
                   root: Id, chain: seq<Id>)
    requires ChainOk(rows, origin, root, chain)
    requires forall id :: id in rows && id in origin && origin[id] == root ==>
      id in rows' && rows'[id] == rows[id] && id in origin' && origin'[id] == root
    ensures ChainOk(rows', origin', root, chain)
  {
    assert forall k :: 0 <= k < |chain| ==> chain[k] in rows' && rows'[chain[k]] == rows[chain[k]];
  }

  lemma LoginKeepsChains(s: State, t: Token)
    requires ChainsOk(s) && t.id !in s.rows && Unrotated(t)
    ensures ChainsOk(LoginRow(s, t))
  {
    hide ChainOk, Unrotated;
    var s' := LoginRow(s, t);
    ChainsAreOfTokens(s);
    LoginKeepsPlaces(s, t);
    forall root | root in s'.chains ensures ChainOk(s'.rows, s'.origin, root, s'.chains[root]) {
      LoginKeepsChain(s, t, root);
    }
  }

  lemma LoginKeepsChain(s: State, t: Token, root: Id)
    requires t.id !in s.rows && Unrotated(t)
    requires root == t.id || (root in s.chains && ChainOk(s.rows, s.origin, root, s.chains[root]))
    ensures var s' := LoginRow(s, t); ChainOk(s'.rows, s'.origin, root, s'.chains[root])
  {
    hide ChainOk, Unrotated;
    var s' := LoginRow(s, t);
    if root == t.id { FirstToken(s'.rows, s'.origin, t); }
    else { ChainFrame(s.rows, s.origin, s'.rows, s'.origin, root, s.chains[root]); }
  }

  lemma LoginKeepsPlaces(s: State, t: Token)
    requires ChainsOk(s) && t.id !in s.rows && t.id !in s.chains
    ensures var s' := LoginRow(s, t);
            && s'.origin.Keys == s'.rows.Keys
            && (forall id :: id in s'.rows ==> s'.origin[id] in s'.chains && id in s'.chains[s'.origin[id]])
  {
    hide ChainOk;
  }

  lemma ChainsAreOfTokens(s: State)
    requires ChainsOk(s)
    ensures forall root :: root in s.chains ==> root in s.rows
  {
    forall root | root in s.chains ensures root in s.rows {
      assert ChainOk(s.rows, s.origin, root, s.chains[root]);
    }
  }

  lemma FirstToken(rows: map<Id, Token>, origin: map<Id, Id>, t: Token)
    requires t.id in rows && rows[t.id] == t && t.id in origin && origin[t.id] == t.id && Unrotated(t)
    ensures ChainOk(rows, origin, t.id, [t.id])
  {
  }

  lemma LoginKeepsTxns(s: State, t: Token)
    requires TxnsOk(s) && t.id !in s.rows
    ensures TxnsOk(LoginRow(s, t))
  {
    var s' := LoginRow(s, t);
    forall u | u in s'.txns ensures TxnOk(s', u) { assert TxnOk(s, u); }
  }

  lemma OnlyLastIsUnrotated(rows: map<Id, Token>, origin: map<Id, Id>, root: Id, chain: seq<Id>)
    requires ChainOk(rows, origin, root, chain)
    ensures forall k :: 0 <= k < |chain| - 1 ==> !Unrotated(rows[chain[k]])
  {
    forall k | 0 <= k < |chain| - 1 ensures !Unrotated(rows[chain[k]]) {
      assert RotatedTo(rows[chain[k]], chain[k + 1]);
    }
  }

  /** An unrotated token is the last of its chain. */
  lemma UnrotatedIsLast(s: State, id: Id)
    requires ChainsOk(s) && id in s.rows && Unrotated(s.rows[id])
    ensures var chain := s.chains[s.origin[id]]; chain != [] && chain[|chain| - 1] == id
  {
    var chain := s.chains[s.origin[id]];
    OnlyLastIsUnrotated(s.rows, s.origin, s.origin[id], chain);
  }

  lemma ChainGrows(rows: map<Id, Token>, origin: map<Id, Id>, root: Id, chain: seq<Id>, stored: Token,
                   claims: Claims, replacement: Id, now: Instant, ttl: int)
    requires ChainOk(rows, origin, root, chain) && replacement !in rows
    requires chain[|chain| - 1] == stored.id && rows[stored.id] == stored && claims == ClaimsOf(stored)
    ensures ChainOk(Extended(rows, stored, claims, replacement, now, ttl), origin[replacement := root],
                    root, chain + [replacement])
  {
    var rows' := Extended(rows, stored, claims, replacement, now, ttl);
    var chain' := chain + [replacement];
    assert forall k :: 0 <= k < |chain| - 1 ==> chain[k] != stored.id && rows'[chain[k]] == rows[chain[k]];
    forall k | 0 <= k < |chain'| - 1 ensures RotatedTo(rows'[chain'[k]], chain'[k + 1]) {
      if k < |chain| - 1 { assert RotatedTo(rows[chain[k]], chain[k + 1]); }
    }
  }

  lemma CommitKeepsChains(s: State, t: Id, stored: Token, replacement: Id, ttl: int)
    requires ChainsOk(s) && t in s.txns && replacement !in s.rows
    requires stored.id in s.rows && s.rows[stored.id] == stored && Unrotated(stored)
    requires s.txns[t].claims == ClaimsOf(stored)
    ensures ChainsOk(CommitRow(s, t, stored, replacement, ttl))
  {
    hide ChainOk, Extended;
    var s', root := CommitRow(s, t, stored, replacement, ttl), s.origin[stored.id];
    UnrotatedIsLast(s, stored.id);
    ExtendedKeys(s.rows, stored, s.txns[t].claims, replacement, s.txns[t].now, ttl);
    forall r | r in s'.chains ensures ChainOk(s'.rows, s'.origin, r, s'.chains[r]) {
      if r == root {
        ChainGrows(s.rows, s.origin, root, s.chains[root], stored, s.txns[t].claims, replacement, s.txns[t].now, ttl);
      } else {
        ChainFrame(s.rows, s.origin, s'.rows, s'.origin, r, s.chains[r]);
      }
    }
    forall id | id in s'.rows ensures s'.origin[id] in s'.chains && id in s'.chains[s'.origin[id]] {
      if id == replacement { assert s'.chains[root][|s.chains[root]|] == id; }
    }
  }

  lemma ExtendedKeys(rows: map<Id, Token>, stored: Token, claims: Claims, replacement: Id, now: Instant, ttl: int)
    requires stored.id in rows && replacement !in rows
    ensures Extended(rows, stored, claims, replacement, now, ttl).Keys == rows.Keys + {replacement}
    ensures forall id :: id in rows && id != stored.id ==>
              Extended(rows, stored, claims, replacement, now, ttl)[id] == rows[id]
    ensures Extended(rows, stored, claims, replacement, now, ttl)[stored.id] ==
            Rotated(rows[stored.id], replacement, now)
  {
  }

  lemma CommitKeepsTxns(s: State, t: Id, stored: Token, replacement: Id, ttl: int)
    requires Inv(s) && t in s.txns && s.txns[t].stage == Approved(stored) && replacement !in s.rows
    requires stored.id in s.rows && s.rows[stored.id] == stored && Unrotated(stored)
    ensures TxnsOk(CommitRow(s, t, stored, replacement, ttl))
  {
    hide ChainOk, Extended;
    var s' := CommitRow(s, t, stored, replacement, ttl);
    ExtendedKeys(s.rows, stored, s.txns[t].claims, replacement, s.txns[t].now, ttl);
    assert TxnOk(s, t);
    forall u | u in s'.txns ensures TxnOk(s', u) {
      assert TxnOk(s, u);
    }
  }

  /** A transaction no step touches stays right while the rows and its lock stay. */
  lemma TxnFrame(s: State, s': State, u: Id)
    requires u in s.txns && u in s'.txns && s'.txns[u] == s.txns[u] && TxnOk(s, u)
    requires s'.rows == s.rows && s'.issuer == s.issuer
    requires forall id :: id in s.locks && s.locks[id] == u ==> id in s'.locks && s'.locks[id] == u
    ensures TxnOk(s', u)
  {
    hide Check;
  }

  lemma BeginKeepsTxns(s: State, t: Id, txn: Txn)
    requires TxnsOk(s) && t !in s.txns && txn.stage.Begun?
    ensures TxnsOk(s.(txns := s.txns[t := txn]))
  {
    hide TxnOk;
    var s' := s.(txns := s.txns[t := txn]);
    forall u | u in s'.txns ensures TxnOk(s', u) {
      if u == t { UnlockedIsOk(s', t); } else { TxnFrame(s, s', u); }
    }
  }

  lemma UnlockedIsOk(s: State, t: Id)
    requires t in s.txns && (s.txns[t].stage.Begun? || s.txns[t].stage.Refused? || s.txns[t].stage.Aborted?)
    ensures TxnOk(s, t)
  {
  }

  lemma LockKeepsTxns(s: State, t: Id)
    requires Inv(s) && t in s.txns && s.txns[t].stage.Begun?
    ensures TxnsOk(LockRow(s, t))
  {
    hide ChainsOk, TxnOk;
    var s' := LockRow(s, t);
    forall u | u in s'.txns ensures TxnOk(s', u) {
      if u == t { LockOwn(s, t); } else { TxnFrame(s, s', u); }
    }
  }

  lemma LockOwn(s: State, t: Id)
    requires ChainsOk(s) && t in s.txns && s.txns[t].stage.Begun?
    ensures TxnOk(LockRow(s, t), t)
  {
    hide ChainsOk, Check;
    if s.txns[t].presented in s.rows { RowsAreKeyed(s, s.txns[t].presented); }
  }

  lemma ExamineKeepsTxns(s: State, t: Id, stored: Token)
    requires TxnsOk(s) && t in s.txns && s.txns[t].stage == Holding(stored)
    ensures TxnsOk(ExamineRow(s, t, stored))
  {
    hide TxnOk, Check;
    var s' := ExamineRow(s, t, stored);
    LockIsOwn(s, t);
    forall u | u in s'.txns ensures TxnOk(s', u) {
      if u == t { ExamineOwn(s, t, stored); } else { TxnFrame(s, s', u); }
    }
  }

  lemma ExamineOwn(s: State, t: Id, stored: Token)
    requires TxnsOk(s) && t in s.txns && s.txns[t].stage == Holding(stored)
    ensures TxnOk(ExamineRow(s, t, stored), t)
  {
    hide Check;
    assert TxnOk(s, t);
  }

  lemma LockIsOwn(s: State, t: Id)
    requires TxnsOk(s) && t in s.txns && (s.txns[t].stage.Holding? || s.txns[t].stage.Approved?)
    ensures s.txns[t].stage.stored.id in s.locks && s.locks[s.txns[t].stage.stored.id] == t
  {
    hide Check;
    assert TxnOk(s, t);
  }

  lemma AbortKeepsTxns(s: State, t: Id)
    requires TxnsOk(s) && t in s.txns
    ensures TxnsOk(AbortTxn(s, t))
  {
    hide TxnOk;
    var s' := AbortTxn(s, t);
    if s' != s {
      if !s.txns[t].stage.Begun? { LockIsOwn(s, t); }
      forall u | u in s'.txns ensures TxnOk(s', u) {
        if u == t { UnlockedIsOk(s', t); } else { TxnFrame(s, s', u); }
      }
    }
  }

  lemma CommitKeepsInv(s: State, a: Action)
    requires Inv(s) && a.Commit?
    ensures ChainsOk(Step(s, a)) && TxnsOk(Step(s, a))
  {
    hide ChainsOk, CommitRow, Check;
    if Step(s, a) != s {
      var stored := s.txns[a.txn].stage.stored;
      assert TxnOk(s, a.txn);
      ApprovedIsUnrotated(s, a.txn, stored);
      CommitKeepsChains(s, a.txn, stored, a.replacement, a.ttl);
      CommitKeepsTxns(s, a.txn, stored, a.replacement, a.ttl);
    }
  }

  /** Steps that write no token leave the chains as they are. */
  lemma QuietStepKeepsChains(s: State, a: Action)
    requires ChainsOk(s) && (a.Begin? || a.Lock? || a.Examine? || a.Abort?)
    ensures ChainsOk(Step(s, a))
  {
    hide ChainsOk, LockRow, ExamineRow, AbortTxn, Authentic;
    SameChains(s, Step(s, a));
  }

  lemma SameChains(s: State, s': State)
    requires ChainsOk(s) && s'.rows == s.rows && s'.chains == s.chains && s'.origin == s.origin
    ensures ChainsOk(s')
  {
    hide ChainOk;
  }

  lemma StepKeepsInv(s: State, a: Action)
    requires Inv(s)
    ensures Inv(Step(s, a))
  {
    hide ChainsOk, TxnsOk;
    if Step(s, a) != s {
      if a.Login? || a.Commit? { WriteKeepsInv(s, a); }
      else {
        QuietStepKeepsChains(s, a);
        QuietStepKeepsTxns(s, a);
      }
      StepKeepsClaims(s, a);
    }
  }

  /** Tokens never change hands: rows keep their bearer, and a new row was presented by nobody. */
  lemma StepKeepsClaims(s: State, a: Action)
    requires ClaimsOk(s)
    ensures ClaimsOk(Step(s, a))
  {
    hide Step, Unused;
    var s' := Step(s, a);
    BearersStay(s, a);
    ClaimsStay(s, a);
    forall u | u in s'.txns ensures Authentic(s', s'.txns[u].presented, s'.txns[u].claims) {
      if u in s.txns {
        assert Authentic(s, s.txns[u].presented, s.txns[u].claims);
        PresentedIsUsed(s, u);
      }
    }
  }

  lemma PresentedIsUsed(s: State, u: Id)
    requires u in s.txns
    ensures !Unused(s, s.txns[u].presented)
  {
  }

  lemma BearersStay(s: State, a: Action)
    ensures forall id :: id in Step(s, a).rows ==>
              || (id in s.rows && ClaimsOf(Step(s, a).rows[id]) == ClaimsOf(s.rows[id]))
              || (id !in s.rows && Unused(s, id) && !a.Begin?)
  {
    hide LockRow, ExamineRow, AbortTxn;
    hide Unused;
    if a.Commit? || a.Login? { UnusedIsNew(s, if a.Commit? then a.replacement else a.id); }
  }

  lemma UnusedIsNew(s: State, id: Id)
    ensures Unused(s, id) ==> id !in s.rows
  {
  }

  lemma ClaimsStay(s: State, a: Action)
    ensures var s' := Step(s, a);
            forall u :: u in s'.txns ==>
              if u in s.txns then s'.txns[u].presented == s.txns[u].presented && s'.txns[u].claims == s.txns[u].claims
              else a.Begin? && Authentic(s', s'.txns[u].presented, s'.txns[u].claims)
  {
    hide LockRow, ExamineRow, AbortTxn, CommitRow, Unused;
  }

  lemma QuietStepKeepsTxns(s: State, a: Action)
    requires Inv(s) && Step(s, a) != s && !a.Login? && !a.Commit?
    ensures TxnsOk(Step(s, a))
  {
    hide ChainsOk, TxnsOk, LockRow, ExamineRow, AbortTxn;
    match a
    case Begin(t, presented, claims, now, access) => BeginKeepsTxns(s, t, Txn(presented, claims, now, access, Begun));
    case Lock(t) => LockKeepsTxns(s, t);
    case Examine(t) => ExamineKeepsTxns(s, t, s.txns[t].stage.stored);
    case Abort(t) => AbortKeepsTxns(s, t);
  }

  lemma WriteKeepsInv(s: State, a: Action)
    requires Inv(s) && (a.Login? || a.Commit?)
    ensures ChainsOk(Step(s, a)) && TxnsOk(Step(s, a))
  {
    hide ChainsOk, TxnsOk, CommitRow, LoginRow;
    if a.Commit? {
      CommitKeepsInv(s, a);
    } else if Unused(s, a.id) {
      var t := Issued(a.id, a.claims, a.now, a.ttl);
      LoginKeepsChains(s, t);
      LoginKeepsTxns(s, t);
    }
  }

  lemma ApprovedIsUnrotated(s: State, t: Id, stored: Token)
    requires ChainsOk(s) && t in s.txns && Check(Some(stored), s.txns[t].now, s.txns[t].access).None?
    requires stored.id in s.rows && s.rows[stored.id] == stored
    ensures Unrotated(stored)
  {
    hide ChainOk;
    RowsAreKeyed(s, stored.id);
  }

  lemma {:induction false} RunKeepsInv(actions: seq<Action>)
    ensures Inv(Run(actions))
  {
    hide Step;
    if actions != [] {
      RunKeepsInv(actions[..|actions| - 1]);
      StepKeepsInv(Run(actions[..|actions| - 1]), actions[|actions| - 1]);
    }
  }

  // ---- Main results ----

  /** Linear chains: in every run of logins and concurrent refreshes, each login has one chain of
      distinct tokens, linked by replaced_by and ending in the chain's one unrotated token; every
      token is in exactly one chain; and a token's version is 2 if it was rotated and 1 if not. */
  lemma {:induction false} ChainsAreLinear(actions: seq<Action>, id: Id)
    requires id in Run(actions).rows
    ensures var s := Run(actions);
            && id in s.origin && s.origin[id] in s.chains && s.chains[s.origin[id]] != []
            && var chain := s.chains[s.origin[id]];
            && ChainOk(s.rows, s.origin, s.origin[id], chain) && id in chain
            && (forall root :: root in s.chains && id in s.chains[root] ==> root == s.origin[id])
            && (s.rows[id].rotatedAt.None? <==> id == chain[|chain| - 1])
            && s.rows[id].version == (if s.rows[id].rotatedAt.Some? then 2 else 1)
  {
    hide Run, TxnsOk, ChainOk;
    RunKeepsInv(actions);
    var s := Run(actions);
    var root := s.origin[id];
    InChain(s.rows, s.origin, root, s.chains[root], id);
    forall r | r in s.chains && id in s.chains[r] ensures r == root {
      InChain(s.rows, s.origin, r, s.chains[r], id);
    }
  }

  lemma InChain(rows: map<Id, Token>, origin: map<Id, Id>, root: Id, chain: seq<Id>, id: Id)
    requires ChainOk(rows, origin, root, chain) && id in chain
    ensures chain != [] && id in rows && id in origin && origin[id] == root
    ensures rows[id].rotatedAt.None? <==> id == chain[|chain| - 1]
    ensures rows[id].version == (if rows[id].rotatedAt.Some? then 2 else 1)
  {
    var k :| 0 <= k < |chain| && chain[k] == id;
    if k < |chain| - 1 { assert RotatedTo(rows[chain[k]], chain[k + 1]); }
  }

  /** A presented token is spent once: of the refreshes that present it, at most one succeeds. */
  lemma {:induction false} OneRefreshPerToken(actions: seq<Action>, t: Id, u: Id)
    requires var s := Run(actions);
             && t in s.txns && u in s.txns && s.txns[t].stage.Done? && s.txns[u].stage.Done?
             && s.txns[t].presented == s.txns[u].presented
    ensures t == u
  {
    hide Run, ChainsOk;
    RunKeepsInv(actions);
    var s := Run(actions);
    assert TxnOk(s, t) && TxnOk(s, u);
  }

  /** The four steps of a refresh that waits for no lock do to the table what TokenTable.Refresh does. */
  lemma StepsMakeRefresh(s: State, t: Id, presented: Id, claims: Claims, now: Instant,
                         access: Access, replacement: Id, ttl: int)
    requires Inv(s) && t !in s.txns && presented !in s.locks && Unused(s, replacement) && replacement != presented
    requires Authentic(s, presented, claims)
    ensures var refusal := Check(Lookup(s.rows, presented), now, access);
            var examined := Step(Step(Step(s, Begin(t, presented, claims, now, access)), Lock(t)), Examine(t));
            var s' := Step(examined, Commit(t, replacement, ttl));
            && s'.rows == (if refusal.Some? then s.rows
                           else Extended(s.rows, s.rows[presented], claims, replacement, now, ttl))
            && t in s'.txns && s'.txns[t].stage == (if refusal.Some? then Refused(refusal.value) else Done(replacement))
            && s'.locks == s.locks
  {
    hide Inv, ChainsOk, TxnsOk, Extended, Step, Check;
    var refusal := Check(Lookup(s.rows, presented), now, access);
    var s1 := Step(s, Begin(t, presented, claims, now, access));
    BeginIs(s, t, presented, claims, now, access);
    if presented in s.rows { StoredRow(s, presented); }
    Examined(s1, t);
    var s3 := Step(Step(s1, Lock(t)), Examine(t));
    if refusal.None? {
      NothingStored(now, access);
      SameUnused(s, s3, t, replacement);
      CommitIs(s3, t, s.rows[presented], replacement, ttl);
      assert s.locks[presented := t] - {presented} == s.locks;
    } else {
      CommitIsIdle(s3, t, replacement, ttl);
    }
  }

  /** Lock and examine, when the row is free: the transaction is refused and holds nothing, or approved
      and holds the row. */
  lemma Examined(s: State, t: Id)
    requires t in s.txns && s.txns[t].stage.Begun? && s.txns[t].presented !in s.locks
    requires s.txns[t].presented in s.rows ==> s.rows[s.txns[t].presented].id == s.txns[t].presented
    ensures var id := s.txns[t].presented;
            var refusal := Check(Lookup(s.rows, id), s.txns[t].now, s.txns[t].access);
            Step(Step(s, Lock(t)), Examine(t)) ==
            if refusal.Some? then Move(s, t, Refused(refusal.value))
            else Move(s, t, Approved(s.rows[id])).(locks := s.locks[id := t])
  {
    hide Step, Check;
    var id := s.txns[t].presented;
    LockIs(s, t);
    var s2 := Step(s, Lock(t));
    NothingStored(s.txns[t].now, s.txns[t].access);
    if id in s.rows {
      ExamineIs(s2, t, s.rows[id]);
      assert s2.locks - {id} == s.locks;
    } else {
      ExamineIsIdle(s2, t);
    }
  }

  lemma NothingStored(now: Instant, access: Access)
    ensures Check(None, now, access) == Some(Reused)
  {
  }

  lemma BeginIs(s: State, t: Id, presented: Id, claims: Claims, now: Instant, access: Access)
    requires t !in s.txns && Authentic(s, presented, claims)
    ensures Step(s, Begin(t, presented, claims, now, access)) ==
            s.(txns := s.txns[t := Txn(presented, claims, now, access, Begun)])
  {
    hide Authentic;
  }

  lemma LockIs(s: State, t: Id)
    requires t in s.txns && s.txns[t].stage.Begun?
    ensures Step(s, Lock(t)) == LockRow(s, t)
  {
    hide LockRow;
  }

  lemma ExamineIs(s: State, t: Id, stored: Token)
    requires t in s.txns && s.txns[t].stage == Holding(stored)
    ensures Step(s, Examine(t)) == ExamineRow(s, t, stored)
  {
    hide ExamineRow;
  }

  lemma ExamineIsIdle(s: State, t: Id)
    requires t in s.txns && !s.txns[t].stage.Holding?
    ensures Step(s, Examine(t)) == s
  {
    hide ExamineRow;
  }

  lemma CommitIs(s: State, t: Id, stored: Token, replacement: Id, ttl: int)
    requires t in s.txns && s.txns[t].stage == Approved(stored) && Unused(s, replacement)
    requires stored.id in s.rows && stored.id in s.origin && s.origin[stored.id] in s.chains
    ensures Step(s, Commit(t, replacement, ttl)) == CommitRow(s, t, stored, replacement, ttl)
  {
    hide CommitRow, Unused;
  }

  lemma CommitIsIdle(s: State, t: Id, replacement: Id, ttl: int)
    requires t in s.txns && !s.txns[t].stage.Approved?
    ensures Step(s, Commit(t, replacement, ttl)) == s
  {
    hide CommitRow, Unused;
  }

  lemma SameUnused(s: State, s': State, t: Id, id: Id)
    requires Unused(s, id) && s'.rows == s.rows && t in s'.txns && s'.txns[t].presented != id
    requires forall u :: u in s'.txns && u != t ==> u in s.txns && s'.txns[u] == s.txns[u]
    ensures Unused(s', id)
  {
  }

  lemma StoredRow(s: State, id: Id)
    requires Inv(s) && id in s.rows
    ensures s.rows[id].id == id && id in s.origin && s.origin[id] in s.chains
  {
    hide ChainOk, TxnsOk;
    RowsAreKeyed(s, id);
  }

  lemma RotatedStays(s: State, a: Action, id: Id)
    requires Inv(s) && id in s.rows && s.rows[id].rotatedAt.Some?
    ensures id in Step(s, a).rows && Step(s, a).rows[id] == s.rows[id]
  {
    hide ChainsOk, Check;
    if a.Commit? && Step(s, a) != s {
      var stored := s.txns[a.txn].stage.stored;
      assert TxnOk(s, a.txn);
      ApprovedIsUnrotated(s, a.txn, stored);
    }
  }

  /** Once rotated, a token is never written again. */
  lemma {:induction false} RotatedOnce(actions: seq<Action>, later: seq<Action>, id: Id)
    requires id in Run(actions).rows && Run(actions).rows[id].rotatedAt.Some?
    ensures id in Run(actions + later).rows && Run(actions + later).rows[id] == Run(actions).rows[id]
    decreases |later|
  {
    hide Step, Inv;
    if later == [] {
      assert actions + later == actions;
    } else {
      var front, all := later[..|later| - 1], actions + later;
      assert all[..|all| - 1] == actions + front;
      RotatedOnce(actions, front, id);
      RunKeepsInv(actions + front);
      RotatedStays(Run(actions + front), later[|later| - 1], id);
    }
  }

  // ---- What an accepted refresh has passed ----

  /** A refresh that is done found its token neither revoked nor expired and its bearer with access, and
      the token it issued was created at the refresh's own time for the token's own bearer. */
  predicate DoneOk(s: State, t: Id)
    requires t in s.txns
  {
    var txn := s.txns[t];
    txn.stage.Done? ==>
      && txn.access == Granted && txn.presented in s.rows
      && txn.now <= s.rows[txn.presented].expiresAt && s.rows[txn.presented].revokedAt == None
      && s.rows[txn.presented].rotatedAt == Some(txn.now)
      && s.rows[txn.presented].replacedBy == Some(txn.stage.replacement)
      && txn.stage.replacement in s.rows && s.rows[txn.stage.replacement].createdAt == txn.now
      && s.rows[txn.stage.replacement].user == s.rows[txn.presented].user
      && s.rows[txn.stage.replacement].workspace == s.rows[txn.presented].workspace
  }

  ghost predicate DoneAllOk(s: State) {
    forall t :: t in s.txns ==> DoneOk(s, t)
  }

  /** Rows stay, and only the rotation columns of a token without rotation change. */
  ghost predicate RowsLast(s: State, s': State) {
    forall id :: id in s.rows ==>
      && id in s'.rows
      && (s.rows[id].rotatedAt.Some? ==> s'.rows[id] == s.rows[id])
      && s'.rows[id].createdAt == s.rows[id].createdAt
      && s'.rows[id].user == s.rows[id].user && s'.rows[id].workspace == s.rows[id].workspace
  }

  lemma StepKeepsRows(s: State, a: Action)
    requires Inv(s)
    ensures RowsLast(s, Step(s, a))
  {
    hide Inv, Step;
    forall id | id in s.rows
      ensures var s' := Step(s, a);
              && id in s'.rows && (s.rows[id].rotatedAt.Some? ==> s'.rows[id] == s.rows[id])
              && s'.rows[id].createdAt == s.rows[id].createdAt
              && s'.rows[id].user == s.rows[id].user && s'.rows[id].workspace == s.rows[id].workspace
    {
      if s.rows[id].rotatedAt.Some? { RotatedStays(s, a, id); }
      RowLasts(s, a, id);
    }
  }

  lemma RowLasts(s: State, a: Action, id: Id)
    requires id in s.rows
    ensures var s' := Step(s, a);
            && id in s'.rows && s'.rows[id].createdAt == s.rows[id].createdAt
            && s'.rows[id].user == s.rows[id].user && s'.rows[id].workspace == s.rows[id].workspace
  {
    hide LockRow, ExamineRow, AbortTxn;
  }

  lemma DoneStays(s: State, s': State, t: Id)
    requires RowsLast(s, s') && t in s.txns && t in s'.txns && s'.txns[t] == s.txns[t] && DoneOk(s, t)
    ensures DoneOk(s', t)
  {
  }

  /** A transaction gets done by its commit only. */
  lemma OnlyCommitIsDone(s: State, a: Action, t: Id)
    requires t in Step(s, a).txns && Step(s, a).txns[t].stage.Done?
    ensures (t in s.txns && Step(s, a).txns[t] == s.txns[t]) || (a.Commit? && a.txn == t && Step(s, a) != s)
  {
    hide Check, Extended;
  }

  lemma CommitIsDone(s: State, a: Action)
    requires Inv(s) && a.Commit? && Step(s, a) != s
    ensures a.txn in Step(s, a).txns && DoneOk(Step(s, a), a.txn)
  {
    hide ChainsOk, Check;
    assert TxnOk(s, a.txn);
    var stored := s.txns[a.txn].stage.stored;
    ApprovedPasses(s.txns[a.txn], stored);
    assert Authentic(s, s.txns[a.txn].presented, s.txns[a.txn].claims);
  }

  lemma ApprovedPasses(txn: Txn, stored: Token)
    requires Check(Some(stored), txn.now, txn.access).None?
    ensures txn.access == Granted && txn.now <= stored.expiresAt && stored.revokedAt == None
  {
  }

  lemma StepKeepsDone(s: State, a: Action)
    requires Inv(s) && DoneAllOk(s)
    ensures DoneAllOk(Step(s, a))
  {
    hide Inv, Step, DoneOk, RowsLast;
    var s' := Step(s, a);
    StepKeepsRows(s, a);
    forall t | t in s'.txns ensures DoneOk(s', t) {
      if s'.txns[t].stage.Done? {
        OnlyCommitIsDone(s, a, t);
        if t in s.txns && s'.txns[t] == s.txns[t] { DoneStays(s, s', t); } else { CommitIsDone(s, a); }
      } else {
        NotDone(s', t);
      }
    }
  }

  lemma NotDone(s: State, t: Id)
    requires t in s.txns && !s.txns[t].stage.Done?
    ensures DoneOk(s, t)
  {
  }

  /** What a committing refresh does, however many others are under way: it replaces a usable token, and the
      new one is the bearer's and valid for the lifetime from the refresh's own time. */
  predicate Renews(s: State, s': State, a: Action)
    requires a.Commit?
  {
    a.txn in s.txns &&
    var txn := s.txns[a.txn];
    && txn.presented in s.rows && Usable(s.rows, txn.presented, txn.now) && txn.access.Granted?
    && txn.claims.user == s.rows[txn.presented].user && txn.claims.workspace == s.rows[txn.presented].workspace
    && Replaced(s.rows, s'.rows, txn.presented, txn.claims, a.replacement, txn.now, a.ttl)
  }

  lemma CommitRenews(s: State, a: Action)
    requires Inv(s) && a.Commit? && Step(s, a) != s
    ensures Renews(s, Step(s, a), a)
  {
    hide ChainsOk;
    var stored := s.txns[a.txn].stage.stored;
    assert TxnOk(s, a.txn);
    CommitIs(s, a.txn, stored, a.replacement, a.ttl);
  }

  /** In every run, every commit that takes effect. */
  lemma {:induction false} CommitsRenew(actions: seq<Action>, a: Action)
    requires a.Commit? && Step(Run(actions), a) != Run(actions)
    ensures Renews(Run(actions), Step(Run(actions), a), a)
  {
    hide Run, Step, Inv, Renews;
    RunKeepsInv(actions);
    CommitRenews(Run(actions), a);
  }

  /** In every run, a refresh that is done passed every check, and its token is for the same bearer. */
  lemma {:induction false} DoneRefreshPassed(actions: seq<Action>, t: Id)
    requires t in Run(actions).txns
    ensures DoneOk(Run(actions), t)
  {
    hide Run, DoneOk;
    RunKeepsDone(actions);
  }

  lemma {:induction false} RunKeepsDone(actions: seq<Action>)
    ensures DoneAllOk(Run(actions))
  {
    hide Step, Inv, DoneOk;
    if actions != [] {
      var front := actions[..|actions| - 1];
      RunKeepsDone(front);
      RunKeepsInv(front);
      StepKeepsDone(Run(front), actions[|actions| - 1]);
    }
  }
}
