/** The files under ~/.claude that every process shares: the credentials, and the marker of a
    refresh token that the server has declared dead.
 */
module OAuthFiles {
  import opened Text

  type Token = string

  const TOKEN_EXPIRY_BUFFER_MS: int := 5 * 60 * 1000
  const PROACTIVE_REFRESH_MIN_VALIDITY_MS: int := 2 * 60 * 60 * 1000

  /** `extras` are the fields of the OAuth entry that a refresh does not touch. */
  datatype Credentials = Credentials(access: string, refresh: Token, expiresAt: int, extras: map<string, string>)

  /** What a refresh yields. */
  datatype TokenSet = TokenSet(access: string, refresh: Token, expiresAt: int)

  datatype CredentialsFile = Missing | Malformed | Parsed(oauth: Option<Credentials>, others: map<string, string>)

  /** SHA-256 without collisions. */
  datatype Hash = Sha256(token: Token)

  datatype Marker = Marker(hash: Hash, firstSeenAt: int, lastSeenAt: int, failures: nat)

  datatype MarkerFile = NoMarker | BadMarker | MarkerOf(marker: Marker)

  datatype Files = Files(credentials: CredentialsFile, marker: MarkerFile)

  predicate Usable(c: Credentials) {
    c.access != "" && c.refresh != "" && c.expiresAt != 0
  }

  function ReadCredentials(f: Files): Option<Credentials> {
    match f.credentials
    case Parsed(Some(c), _) => if Usable(c) then Some(c) else None
    case _ => None
  }

  predicate ShouldRefresh(expiresAt: int, minimumValidity: int, now: int) {
    now >= expiresAt - minimumValidity
  }

  predicate IsExpired(expiresAt: int, now: int) {
    ShouldRefresh(expiresAt, TOKEN_EXPIRY_BUFFER_MS, now)
  }

  predicate MarkedDead(f: Files, token: Token) {
    f.marker.MarkerOf? && f.marker.marker.hash == Sha256(token)
  }

  /** Looking up the marker for a token throws away the marker of another one. */
  function CheckMarker(f: Files, token: Token): Files {
    if f.marker.MarkerOf? && f.marker.marker.hash != Sha256(token) then f.(marker := NoMarker) else f
  }

  function MarkDead(f: Files, token: Token, now: int): Files {
    var same := MarkedDead(f, token);
    f.(marker := MarkerOf(Marker(Sha256(token), if same then f.marker.marker.firstSeenAt else now, now,
                                 if same then f.marker.marker.failures + 1 else 1)))
  }

  /** A save keeps every field it does not know, and replaces a file it cannot read. */
  function Save(f: Files, tokens: TokenSet): Files {
    var extras :=
      if f.credentials.Parsed? && f.credentials.oauth.Some? then f.credentials.oauth.value.extras else map[];
    var others := if f.credentials.Parsed? then f.credentials.others else map[];
    f.(credentials := Parsed(Some(Credentials(tokens.access, tokens.refresh, tokens.expiresAt, extras)), others))
  }

  /** What is saved is what the next reader sees, with the fields the refresh knows nothing of. */
  lemma {:induction false} SaveThenRead(f: Files, tokens: TokenSet)
    requires tokens.access != "" && tokens.refresh != "" && tokens.expiresAt != 0
    ensures var r := ReadCredentials(Save(f, tokens));
            && r.Some? && r.value.access == tokens.access && r.value.refresh == tokens.refresh
            && r.value.expiresAt == tokens.expiresAt
            && (ReadCredentials(f).Some? ==> r.value.extras == ReadCredentials(f).value.extras)
    ensures f.credentials.Parsed? ==> Save(f, tokens).credentials.others == f.credentials.others
  {
  }

  // ---- One call of getValidAccessToken, between its awaits ----

  datatype Result = AccessToken(access: string, refreshed: bool) | NoToken | Threw

  datatype Reply =
    | Grant(access: string, refresh: Option<Token>, lifetimeSeconds: nat)
    | HttpError(retryable: bool, invalidGrant: bool)

  datatype Call =
    | WaitingForLock(minimumValidity: int)
    | HoldingLock(minimumValidity: int)
    | Posting(credentials: Credentials, attempt: nat)
    | Answered(credentials: Credentials, attempt: nat, reply: Reply)
    | Releasing(result: Result)
    | Done(result: Result)

  const MAX_ATTEMPTS: nat := 3

  /** From the call to the wait for the lock.  `dirOk` says that ~/.claude can be written. */
  function StartCall(f: Files, minimumValidity: int, now: int, dirOk: bool): (Files, Call) {
    if minimumValidity < 0 then (f, Done(Threw))
    else
      match ReadCredentials(f)
      case None => (f, Done(NoToken))
      case Some(c) =>
        if !ShouldRefresh(c.expiresAt, minimumValidity, now) then (f, Done(AccessToken(c.access, false)))
        else if MarkedDead(f, c.refresh) then
          (f, Done(if IsExpired(c.expiresAt, now) then NoToken else AccessToken(c.access, false)))
        else (CheckMarker(f, c.refresh), if dirOk then WaitingForLock(minimumValidity) else Done(Threw))
  }

  /** One proactive check: it ends at once unless the token must be refreshed. */
  function StartTick(f: Files, now: int, dirOk: bool): (Files, Option<Call>) {
    match ReadCredentials(f)
    case None => (f, None)
    case Some(c) =>
      if MarkedDead(f, c.refresh) then (f, None)
      else
        var f' := CheckMarker(f, c.refresh);
        if !ShouldRefresh(c.expiresAt, PROACTIVE_REFRESH_MIN_VALIDITY_MS, now) then (f', None)
        else
          var (f'', call) := StartCall(f', PROACTIVE_REFRESH_MIN_VALIDITY_MS, now, dirOk);
          (f'', Some(call))
  }

  /** From the lock to the request, or to the release. */
  function ResumeWithLock(f: Files, minimumValidity: int, now: int): (Files, Call) {
    match ReadCredentials(f)
    case None => (f, Releasing(NoToken))
    case Some(c) =>
      if MarkedDead(f, c.refresh) then
        (f, Releasing(if IsExpired(c.expiresAt, now) then NoToken else AccessToken(c.access, false)))
      else
        (CheckMarker(f, c.refresh),
         if !ShouldRefresh(c.expiresAt, minimumValidity, now) then Releasing(AccessToken(c.access, false))
         else Posting(c, 1))
  }

  /** The credentials a grant stands for: a reply without a refresh token keeps the old one. */
  function Granted(c: Credentials, g: Reply, now: int): TokenSet
    requires g.Grant?
  {
    TokenSet(g.access, if g.refresh.Some? then g.refresh.value else c.refresh, now + g.lifetimeSeconds * 1000)
  }

  /** From the reply to the next request, or to the release. */
  function ResumeWithReply(f: Files, c: Credentials, attempt: nat, reply: Reply, now: int, writeOk: bool): (Files,
        Call) {
    match reply
    case Grant(access, _, _) =>
      if writeOk then (Save(f, Granted(c, reply, now)).(marker := NoMarker), Releasing(AccessToken(access, true)))
      else (f, Releasing(Threw))
    case HttpError(retryable, invalidGrant) =>
      if retryable && attempt < MAX_ATTEMPTS then (f, Posting(c, attempt + 1))
      else if !invalidGrant || !writeOk then (f, Releasing(Threw))
      else (MarkDead(f, c.refresh, now),
            Releasing(if IsExpired(c.expiresAt, now) then NoToken else AccessToken(c.access, false)))
  }

  // ---- Which answer comes when ----

  /** Credentials are read exactly when all three fields are there. */
  lemma {:induction false} ReadsTheUsable(f: Files)
    ensures forall c :: ReadCredentials(f) == Some(c) <==>
              f.credentials.Parsed? && f.credentials.oauth == Some(c)
              && c.access != "" && c.refresh != "" && c.expiresAt != 0
    ensures forall t :: MarkedDead(f, t) <==> f.marker.MarkerOf? && f.marker.marker.hash == Sha256(t)
  {
  }

  /** The answer of a call, by the credentials on disk, their marker and the clock. */
  lemma {:induction false} CallAnswers(f: Files, minimumValidity: int, now: int, dirOk: bool)
    ensures var (f', call) := StartCall(f, minimumValidity, now, dirOk);
            && (minimumValidity < 0 ==> call == Done(Threw) && f' == f)
            && (minimumValidity >= 0 ==>
                  match ReadCredentials(f)
                  case None => call == Done(NoToken) && f' == f
                  case Some(c) =>
                    && (now < c.expiresAt - minimumValidity ==> call == Done(AccessToken(c.access, false)) && f' == f)
                    && (now >= c.expiresAt - minimumValidity && !MarkedDead(f, c.refresh) ==>
                          call == (if dirOk then WaitingForLock(minimumValidity) else Done(Threw))
                          && f' == f.(marker := if f.marker.MarkerOf? then NoMarker else f.marker))
                    && (now >= c.expiresAt - minimumValidity && MarkedDead(f, c.refresh) ==>
                          call == Done(if now < c.expiresAt - 300_000 then AccessToken(c.access, false) else NoToken)
                          && f' == f))
  {
  }

  /** The answer of a proactive check: nothing at all unless the token is unmarked and has less than
      two hours left. */
  lemma {:induction false} TickAnswers(f: Files, now: int, dirOk: bool)
    ensures var (f', call) := StartTick(f, now, dirOk);
            match ReadCredentials(f)
            case None => call == None && f' == f
            case Some(c) =>
              && (if MarkedDead(f, c.refresh) || now < c.expiresAt - 7_200_000 then call == None
                  else call == Some(if dirOk then WaitingForLock(7_200_000) else Done(Threw)))
              && f' == if !MarkedDead(f, c.refresh) && f.marker.MarkerOf? then f.(marker := NoMarker) else f
  {
  }

  /** What a call does once it has the lock. */
  lemma {:induction false} LockAnswers(f: Files, minimumValidity: int, now: int)
    ensures var (f', call) := ResumeWithLock(f, minimumValidity, now);
            match ReadCredentials(f)
            case None => call == Releasing(NoToken) && f' == f
            case Some(c) =>
              && (if MarkedDead(f, c.refresh)
                  then call == Releasing(if now < c.expiresAt - 300_000 then AccessToken(c.access, false) else NoToken)
                  else if now < c.expiresAt - minimumValidity then call == Releasing(AccessToken(c.access, false))
                  else call == Posting(c, 1))
              && f' == if !MarkedDead(f, c.refresh) && f.marker.MarkerOf? then f.(marker := NoMarker) else f
  {
  }

  /** What becomes of a grant: it is on disk for as long as it lasts, with the old refresh token if it
      brought none, the marker is gone, and the caller has the new access token. */
  lemma {:induction false} GrantIsSaved(f: Files, c: Credentials, attempt: nat, access: string, refresh: Option<Token>,
        lifetimeSeconds: nat, now: int, writeOk: bool)
    requires access != "" && c.refresh != "" && now > 0 && (refresh.Some? ==> refresh.value != "")
    ensures var (f', call) := ResumeWithReply(f, c, attempt, Grant(access, refresh, lifetimeSeconds), now, writeOk);
            if !writeOk then f' == f && call == Releasing(Threw)
            else
              && call == Releasing(AccessToken(access, true)) && f'.marker == NoMarker
              && ReadCredentials(f').Some?
              && var saved := ReadCredentials(f').value;
              && saved.access == access && saved.expiresAt == now + lifetimeSeconds * 1000
              && saved.refresh == (match refresh case Some(t) => t case None => c.refresh)
  {
  }

  /** What becomes of an error: three attempts at most, then the caller sees it, unless it declares
      the chain dead. */
  lemma {:induction false} ErrorAnswers(f: Files, c: Credentials, attempt: nat, retryable: bool, invalidGrant: bool,
        now: int, writeOk: bool)
    ensures var (f', call) := ResumeWithReply(f, c, attempt, HttpError(retryable, invalidGrant), now, writeOk);
            if retryable && attempt < 3 then f' == f && call == Posting(c, attempt + 1)
            else if !invalidGrant || !writeOk then f' == f && call == Releasing(Threw)
            else
              && f'.credentials == f.credentials && MarkedDead(f', c.refresh)
              && f'.marker.marker.lastSeenAt == now
              && f'.marker.marker.firstSeenAt
                 == (if MarkedDead(f, c.refresh) then f.marker.marker.firstSeenAt else now)
              && f'.marker.marker.failures == (if MarkedDead(f, c.refresh) then f.marker.marker.failures + 1 else 1)
              && call == Releasing(if now < c.expiresAt - 300_000 then AccessToken(c.access, false) else NoToken)
  {
  }

  /** The files, with the methods of the source that read and write them. */
  class ClaudeDir {
    var credentials: CredentialsFile
    var marker: MarkerFile

    ghost function View(): Files
      reads this
    {
      Files(credentials, marker)
    }

    method Read() returns (r: Option<Credentials>)
      ensures r == ReadCredentials(View())
    {
      if !credentials.Parsed? || credentials.oauth.None? {
        return None;
      }
      var c := credentials.oauth.value;
      if c.access == "" || c.refresh == "" || c.expiresAt == 0 {
        return None;
      }
      return Some(c);
    }

    method GetDeadMarker(token: Token) returns (r: Option<Marker>)
      modifies this
      ensures View() == CheckMarker(old(View()), token)
      ensures credentials == old(credentials)
      ensures marker == if old(marker).MarkerOf? && old(marker).marker.hash != Sha256(token) then NoMarker
                        else old(marker)
      ensures r.Some? <==> MarkedDead(old(View()), token)
      ensures r.Some? ==> old(marker) == MarkerOf(r.value)
    {
      if !marker.MarkerOf? {
        return None;
      }
      if marker.marker.hash != Sha256(token) {
        marker := NoMarker;
        return None;
      }
      return Some(marker.marker);
    }

    method MarkChainDead(token: Token, now: int)
      modifies this
      ensures View() == MarkDead(old(View()), token, now)
      ensures MarkedDead(View(), token) && credentials == old(credentials)
    {
      var firstSeenAt, failures := now, 1;
      if marker.MarkerOf? && marker.marker.hash == Sha256(token) {
        firstSeenAt, failures := marker.marker.firstSeenAt, marker.marker.failures + 1;
      }
      marker := MarkerOf(Marker(Sha256(token), firstSeenAt, now, failures));
    }

    method SaveCredentials(tokens: TokenSet)
      modifies this
      ensures View() == Save(old(View()), tokens)
      ensures tokens.access != "" && tokens.refresh != "" && tokens.expiresAt != 0 ==>
                ReadCredentials(View()).Some? && ReadCredentials(View()).value.refresh == tokens.refresh
      ensures marker == old(marker)
    {
      var extras: map<string, string>, others: map<string, string> := map[], map[];
      if credentials.Parsed? {
        others := credentials.others;
        if credentials.oauth.Some? {
          extras := credentials.oauth.value.extras;
        }
      }
      credentials := Parsed(Some(Credentials(tokens.access, tokens.refresh, tokens.expiresAt, extras)), others);
    }

    method GetValidAccessToken(minimumValidity: int, now: int, dirOk: bool) returns (call: Call)
      modifies this
      ensures (View(), call) == StartCall(old(View()), minimumValidity, now, dirOk)
      ensures credentials == old(credentials)
      ensures call.WaitingForLock? ==>
                && ReadCredentials(View()).Some? && !MarkedDead(View(), ReadCredentials(View()).value.refresh)
                && ShouldRefresh(ReadCredentials(View()).value.expiresAt, minimumValidity, now)
    {
      if minimumValidity < 0 {
        return Done(Threw);
      }
      var credentials := Read();
      if credentials.None? {
        return Done(NoToken);
      }
      var c := credentials.value;
      if !ShouldRefresh(c.expiresAt, minimumValidity, now) {
        return Done(AccessToken(c.access, false));
      }
      var dead := GetDeadMarker(c.refresh);
      if dead.Some? {
        if !IsExpired(c.expiresAt, now) {
          return Done(AccessToken(c.access, false));
        }
        return Done(NoToken);
      }
      if !dirOk {
        return Done(Threw);
      }
      return WaitingForLock(minimumValidity);
    }

    method RunProactiveRefreshTick(now: int, dirOk: bool) returns (call: Option<Call>)
      modifies this
      ensures (View(), call) == StartTick(old(View()), now, dirOk)
      ensures credentials == old(credentials)
      ensures call.Some? ==>
                && ReadCredentials(View()).Some? && !MarkedDead(View(), ReadCredentials(View()).value.refresh)
                && (call.value == Done(Threw) || call.value == WaitingForLock(PROACTIVE_REFRESH_MIN_VALIDITY_MS))
    {
      var credentials := Read();
      if credentials.None? {
        return None;
      }
      var dead := GetDeadMarker(credentials.value.refresh);
      if dead.Some? {
        return None;
      }
      if !ShouldRefresh(credentials.value.expiresAt, PROACTIVE_REFRESH_MIN_VALIDITY_MS, now) {
        return None;
      }
      var started := GetValidAccessToken(PROACTIVE_REFRESH_MIN_VALIDITY_MS, now, dirOk);
      return Some(started);
    }

    method RefreshWithLock(minimumValidity: int, now: int) returns (call: Call)
      modifies this
      ensures (View(), call) == ResumeWithLock(old(View()), minimumValidity, now)
      ensures credentials == old(credentials)
      ensures call.Posting? ==>
                && ReadCredentials(View()) == Some(call.credentials) && !MarkedDead(View(), call.credentials.refresh)
                && ShouldRefresh(call.credentials.expiresAt, minimumValidity, now)
    {
      var credentials := Read();
      if credentials.None? {
        return Releasing(NoToken);
      }
      var c := credentials.value;
      var dead := GetDeadMarker(c.refresh);
      if dead.Some? {
        if !IsExpired(c.expiresAt, now) {
          return Releasing(AccessToken(c.access, false));
        }
        return Releasing(NoToken);
      }
      if !ShouldRefresh(c.expiresAt, minimumValidity, now) {
        return Releasing(AccessToken(c.access, false));
      }
      return Posting(c, 1);
    }

    method HandleReply(c: Credentials, attempt: nat, reply: Reply, now: int, writeOk: bool) returns (call: Call)
      modifies this
      ensures (View(), call) == ResumeWithReply(old(View()), c, attempt, reply, now, writeOk)
      ensures call.Posting? ==> call.credentials == c && call.attempt <= MAX_ATTEMPTS && View() == old(View())
      ensures call.Releasing? && call.result.AccessToken? && call.result.refreshed ==>
                && View().marker == NoMarker
                && View().credentials.Parsed? && View().credentials.oauth.Some?
                && View().credentials.oauth.value.access == call.result.access
      ensures call.Releasing? && call.result.AccessToken? && !call.result.refreshed ==>
                MarkedDead(View(), c.refresh) && call.result.access == c.access && !IsExpired(c.expiresAt, now)
    {
      match reply {
        case Grant(access, _, _) =>
          if !writeOk {
            return Releasing(Threw);
          }
          SaveCredentials(Granted(c, reply, now));
          marker := NoMarker;
          return Releasing(AccessToken(access, true));
        case HttpError(retryable, invalidGrant) =>
          if retryable && attempt < MAX_ATTEMPTS {
            return Posting(c, attempt + 1);
          }
          if !invalidGrant || !writeOk {
            return Releasing(Threw);
          }
          MarkChainDead(c.refresh, now);
          if !IsExpired(c.expiresAt, now) {
            return Releasing(AccessToken(c.access, false));
          }
          return Releasing(NoToken);
      }
    }
  }
}
