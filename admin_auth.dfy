/**
  Logging in to the dashboard with an admin card: the page asks for a
  scan, the next card read mints a one-time token if it is an admin card,
  and the dashboard accepts the token once within a minute. Times are
  milliseconds; tokens are the `uuid4` strings, supplied by the caller.
*/
module AdminAuth {
  import opened Wrappers

  /** `admin_cards` */
  const AdminCards: seq<string> := ["231654949486"]
  /** A token is accepted while it is younger than sixty seconds. */
  const TokenLifetime: int := 60000

  /** A token can be redeemed now. */
  predicate Redeemable(tokens: map<string, int>, token: string, now: int) {
    token in tokens && now - tokens[token] < TokenLifetime
  }

  /** The token table after a redemption attempt: a redeemable token is
      removed, anything else (an expired token too) stays. */
  function AfterRedeem(tokens: map<string, int>, token: string, now: int): map<string, int> {
    if Redeemable(tokens, token, now) then tokens - {token} else tokens
  }

  /** The token table after an admin scan. */
  function AfterScan(tokens: map<string, int>, card: string, token: string, now: int): map<string, int> {
    if card in AdminCards then tokens[token := now] else tokens
  }

  /** The module globals `admin_auth_pending`, `admin_auth_socket_id` and
      `valid_login_tokens`. */
  class AdminLogin {
    var pending: bool
    var socketId: Option<string>
    var tokens: map<string, int>

    constructor()
      ensures !pending && socketId.None? && tokens == map[]
    {
      pending := false;
      socketId := None;
      tokens := map[];
    }

    /** `admin_login_request`: the next card read is an admin login for
        this page. */
    method Request(sid: string)
      modifies this
      ensures pending && socketId == Some(sid) && tokens == old(tokens)
    {
      pending := true;
      socketId := Some(sid);
    }

    /** `admin_login_cancel` */
    method Cancel()
      modifies this
      ensures !pending && socketId == old(socketId) && tokens == old(tokens)
    {
      pending := false;
    }

    /** A card read while a login is pending: an admin card mints `token`,
        any card ends the pending login. `notify` says whether the page is
        told the outcome. */
    method Scan(card: string, token: string, now: int) returns (success: bool, minted: Option<string>, notify: bool)
      modifies this
      ensures success <==> card in AdminCards
      ensures minted == (if success then Some(token) else None)
      ensures tokens == AfterScan(old(tokens), card, token, now)
      ensures notify <==> socketId.Some?
      ensures !pending && socketId == old(socketId)
    {
      success := card in AdminCards;
      minted := None;
      if success {
        minted := Some(token);
        tokens := tokens[token := now];
      }
      notify := socketId.Some?;
      pending := false;
    }

    /** The token check of `/dashboard`: a redeemable token logs the
        session in and is used up. `shown` says whether the dashboard is
        rendered rather than the login page. */
    method Dashboard(token: Option<string>, loggedIn: bool, now: int) returns (accepted: bool, shown: bool)
      modifies this
      ensures accepted <==> token.Some? && token.value != [] && Redeemable(old(tokens), token.value, now)
      ensures tokens == (if accepted then AfterRedeem(old(tokens), token.value, now) else old(tokens))
      ensures shown <==> accepted || loggedIn
      ensures pending == old(pending) && socketId == old(socketId)
    {
      accepted := false;
      if token.Some? && token.value != [] && token.value in tokens {
        var timestamp := tokens[token.value];
        if now - timestamp < TokenLifetime {
          accepted := true;
          tokens := tokens - {token.value};
        }
      }
      shown := accepted || loggedIn;
    }
  }

  // ---------------------------------------------------------------------
  // The token lifecycle
  // ---------------------------------------------------------------------

  /** Only an admin card adds a token, and it is valid from the scan. */
  lemma MintOnlyForAdmins(tokens: map<string, int>, card: string, token: string, now: int)
    ensures card !in AdminCards ==> AfterScan(tokens, card, token, now) == tokens
    ensures card in AdminCards ==> Redeemable(AfterScan(tokens, card, token, now), token, now)
    ensures card in AdminCards <==> card == "231654949486"
  {
  }

  /** A token is accepted at most once. */
  lemma SingleUse(tokens: map<string, int>, token: string, t1: int, t2: int)
    requires Redeemable(tokens, token, t1)
    ensures !Redeemable(AfterRedeem(tokens, token, t1), token, t2)
  {
  }

  /** A minted token is accepted up to just under a minute later, and no later. */
  lemma TokenWindow(tokens: map<string, int>, card: string, token: string, minted: int, later: int)
    requires card in AdminCards
    ensures Redeemable(AfterScan(tokens, card, token, minted), token, later) <==> later - minted < TokenLifetime
  {
  }

  /** An expired token is refused and left in the table. */
  lemma ExpiredKept(tokens: map<string, int>, token: string, now: int)
    requires token in tokens && now - tokens[token] >= TokenLifetime
    ensures !Redeemable(tokens, token, now) && AfterRedeem(tokens, token, now) == tokens
    ensures token in AfterRedeem(tokens, token, now)
  {
  }

  /** A redemption removes only the redeemed token. */
  lemma RedeemRemovesOne(tokens: map<string, int>, token: string, now: int)
    requires Redeemable(tokens, token, now)
    ensures forall t :: t in AfterRedeem(tokens, token, now) <==> t in tokens && t != token
    ensures forall t :: t in AfterRedeem(tokens, token, now) ==> AfterRedeem(tokens, token, now)[t] == tokens[t]
  {
  }
}
