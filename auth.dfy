/** Microsoft account handling (auth.rs): the account record, the
    authenticator's configuration, token validity, and how accounts are
    assembled from the token-exchange chain. The HTTP requests of that chain
    are not modelled; their combined outcome is an input. Instants are
    nanoseconds since the Unix epoch, chrono's precision. */
module Auth {
  import opened Wrappers
  import opened Strings
  import opened Errors
  import opened Version

  const NANOS_PER_SECOND: int := 1_000_000_000
  /** The safety margin `is_token_valid` asks for. */
  const FIVE_MINUTES: int := 300 * NANOS_PER_SECOND

  type Instant = int

  datatype SkinInfo = SkinInfo(id: string, state: string, url: string, variant: string)

  datatype CapeInfo = CapeInfo(id: string, state: string, url: string, alias: string)

  datatype ProfileInfo = ProfileInfo(id: string, name: string, skins: seq<SkinInfo>, capes: seq<CapeInfo>)

  datatype Account = Account(
    uuid: string,
    name: string,
    accessToken: string,
    refreshToken: string,
    expiresAt: Instant,
    accountType: string,
    profile: ProfileInfo)

  datatype AuthenticatorConfig = AuthenticatorConfig(
    clientId: string,
    redirectUri: string,
    scopes: seq<string>,
    userAgent: Option<string>,
    timeout: nat)

  /** The Microsoft token endpoint's answer; `expiresIn` is in seconds. */
  datatype TokenResponse = TokenResponse(
    accessToken: string,
    tokenType: string,
    expiresIn: nat,
    scope: string,
    refreshToken: Option<string>)

  /** What the Xbox Live, XSTS, Minecraft and profile steps that follow a
      Microsoft token produced: the Minecraft access token and the profile. */
  datatype MinecraftLogin = MinecraftLogin(minecraftToken: string, profile: ProfileInfo)

  datatype DeviceCodeResponse = DeviceCodeResponse(
    deviceCode: string,
    userCode: string,
    verificationUri: string,
    expiresIn: nat,
    interval: nat,
    message: Option<string>)

  /** `AuthenticatorConfig::default()`; `crateVersion` is the library's
      package version. */
  function DefaultAuthenticatorConfig(crateVersion: string): AuthenticatorConfig
  {
    AuthenticatorConfig(
      "00000000-0000-0000-0000-000000000000",
      "http://localhost:8080/auth/callback",
      ["XboxLive.signin", "offline_access"],
      Some("MinecraftLauncher/" + crateVersion),
      300)
  }

  /** `AuthenticatorConfig::new(client_id)`: the given client and the
      defaults for everything else. */
  function NewAuthenticatorConfig(clientId: string, crateVersion: string): (c: AuthenticatorConfig)
    ensures c.clientId == clientId
    ensures c.redirectUri == "http://localhost:8080/auth/callback"
    ensures c.scopes == ["XboxLive.signin", "offline_access"]
    ensures c.userAgent == Some("MinecraftLauncher/" + crateVersion)
    ensures c.timeout == 300
  {
    DefaultAuthenticatorConfig(crateVersion).(clientId := clientId)
  }

  function WithRedirectUri(c: AuthenticatorConfig, uri: string): (r: AuthenticatorConfig)
    ensures r.redirectUri == uri && r.(redirectUri := c.redirectUri) == c
  {
    c.(redirectUri := uri)
  }

  function WithScopes(c: AuthenticatorConfig, scopes: seq<string>): (r: AuthenticatorConfig)
    ensures r.scopes == scopes && r.(scopes := c.scopes) == c
  {
    c.(scopes := scopes)
  }

  function WithUserAgent(c: AuthenticatorConfig, agent: string): (r: AuthenticatorConfig)
    ensures r.userAgent == Some(agent) && r.(userAgent := c.userAgent) == c
  {
    c.(userAgent := Some(agent))
  }

  function WithTimeout(c: AuthenticatorConfig, seconds: nat): (r: AuthenticatorConfig)
    ensures r.timeout == seconds && r.(timeout := c.timeout) == c
  {
    c.(timeout := seconds)
  }

  /** `is_token_valid`: the token must outlive the next five minutes. */
  predicate IsTokenValid(a: Account, now: Instant)
  {
    a.expiresAt > now + FIVE_MINUTES
  }

  /** A token valid now was valid at every earlier instant, and no token is
      valid closer than five minutes to its expiry. */
  lemma TokenValidity(a: Account, earlier: Instant, now: Instant)
    requires earlier <= now
    ensures IsTokenValid(a, now) ==> IsTokenValid(a, earlier)
    ensures now + FIVE_MINUTES >= a.expiresAt ==> !IsTokenValid(a, now)
  {
  }

  /** The account a fresh login produces (`authenticate_with_code` and
      `complete_authentication_with_token` build it the same way). */
  function LoginAccount(token: TokenResponse, login: MinecraftLogin, now: Instant): (a: Account)
    ensures a.accountType == "msa"
    ensures a.uuid == login.profile.id && a.name == login.profile.name && a.profile == login.profile
    ensures a.accessToken == login.minecraftToken
    ensures a.refreshToken == (if token.refreshToken.Some? then token.refreshToken.value else "")
    ensures a.expiresAt == now + token.expiresIn * NANOS_PER_SECOND
  {
    Account(
      login.profile.id,
      login.profile.name,
      login.minecraftToken,
      token.refreshToken.UnwrapOr(""),
      now + token.expiresIn * NANOS_PER_SECOND,
      "msa",
      login.profile)
  }

  /** `refresh_account`. Without a refresh token it fails before any
      request; otherwise `chain` is what the refresh and re-login requests
      produced (the first failing step's error, or the new token and
      login). */
  function RefreshAccount(account: Account, chain: LResult<(TokenResponse, MinecraftLogin)>, now: Instant): (r: LResult<Account>)
    ensures account.refreshToken == "" ==> r == Err(Auth("No refresh token available"))
    ensures account.refreshToken != "" && chain.Err? ==> r == Err(chain.error)
    ensures r.Ok? ==> chain.Ok? && account.refreshToken != ""
    ensures r.Ok? ==>
      var (token, login) := chain.value;
      && r.value.uuid == login.profile.id && r.value.name == login.profile.name
      && r.value.profile == login.profile && r.value.accessToken == login.minecraftToken
      && r.value.accountType == account.accountType
      && r.value.refreshToken == (if token.refreshToken.Some? then token.refreshToken.value else account.refreshToken)
      && r.value.expiresAt == now + token.expiresIn * NANOS_PER_SECOND
  {
    if account.refreshToken == [] then Err(AuthError("No refresh token available"))
    else
      match chain
      case Err(e) => Err(e)
      case Ok((token, login)) =>
        Ok(Account(
          login.profile.id,
          login.profile.name,
          login.minecraftToken,
          token.refreshToken.UnwrapOr(account.refreshToken),
          now + token.expiresIn * NANOS_PER_SECOND,
          account.accountType,
          login.profile))
  }

  /** The empty-token failure does not depend on what the network would
      have answered: no request is made. */
  lemma RefreshWithoutTokenMakesNoRequest(account: Account, c1: LResult<(TokenResponse, MinecraftLogin)>, c2: LResult<(TokenResponse, MinecraftLogin)>, t1: Instant, t2: Instant)
    requires account.refreshToken == ""
    ensures RefreshAccount(account, c1, t1) == RefreshAccount(account, c2, t2)
  {
  }

  /** The user code shown for Unix time `t`: two groups of four upper-case
      hexadecimal digits joined by a dash. */
  function UserCode(t: nat): (code: string)
    ensures |code| == 9 && code[4] == '-'
    ensures forall i :: 0 <= i < 9 && i != 4 ==> IsUpperHex(code[i])
  {
    Pow16Four();
    var lo := HexFixed(t % 65536, 4);
    var hi := HexFixed((t / 65536) % 65536, 4);
    assert forall i :: 0 <= i < 9 && i != 4 ==> (lo + "-" + hi)[i] == if i < 4 then lo[i] else hi[i - 5];
    lo + "-" + hi
  }

  const VERIFICATION_URI_PREFIX := "https://login.live.com/oauth20_authorize.srf?client_id="
  const VERIFICATION_URI_SUFFIX :=
    "&response_type=code&redirect_uri=https://login.live.com/oauth20_desktop.srf&scope=XboxLive.signin%20offline_access&prompt=select_account"
  const DEVICE_CODE_MESSAGE := "Please visit the URL and sign in with your Microsoft account"

  /** `start_device_code_flow` at Unix time `t` seconds: a locally made-up
      session that points at the ordinary authorization page. */
  function StartDeviceCodeFlow(c: AuthenticatorConfig, t: nat): (d: DeviceCodeResponse)
    ensures d.expiresIn == 900 && d.interval == 5 && d.message.Some?
  {
    DeviceCodeResponse(
      "device_" + NatToString(t),
      UserCode(t),
      VERIFICATION_URI_PREFIX + c.clientId + VERIFICATION_URI_SUFFIX,
      900,
      5,
      Some(DEVICE_CODE_MESSAGE))
  }

  /** Both codes give the timestamp back: the device code in full, the user
      code its low 32 bits (first group the low 16 bits, second the next 16);
      the verification address names the configured client. */
  lemma {:induction false} DeviceCodeEncodesTimestamp(c: AuthenticatorConfig, t: nat)
    ensures var d := StartDeviceCodeFlow(c, t);
      && d.deviceCode[..7] == "device_" && AllDigits(d.deviceCode[7..])
      && DigitsValue(d.deviceCode[7..]) == t
      && |d.userCode| == 9 && d.userCode[4] == '-'
      && HexDigitsValue(d.userCode[..4]) + 65536 * HexDigitsValue(d.userCode[5..]) == t % 0x1_0000_0000
      && Contains(d.verificationUri, c.clientId)
  {
    Pow16Four();
    var d := StartDeviceCodeFlow(c, t);
    assert d.deviceCode[7..] == NatToString(t);
    NatToStringValue(t);
    ContainsInfix(VERIFICATION_URI_PREFIX, c.clientId, VERIFICATION_URI_SUFFIX);
    var code := UserCode(t);
    var lo := t % 65536;
    var hi := (t / 65536) % 65536;
    assert code[..4] == HexFixed(lo, 4);
    assert code[5..] == HexFixed(hi, 4);
    HexFixedValue(lo, 4);
    HexFixedValue(hi, 4);
    Low32Split(t);
  }

  /** The two 16-bit groups of the user code, low group first, make up
      the timestamp's low 32 bits. */
  lemma Low32Split(t: nat)
    ensures t % 65536 + 65536 * ((t / 65536) % 65536) == t % 0x1_0000_0000
  {
    var q := t / 65536;
    var lo := t % 65536;
    var hi := q % 65536;
    assert t == q * 65536 + lo;
    assert q == (q / 65536) * 65536 + hi;
    assert t == (q / 65536) * 0x1_0000_0000 + (hi * 65536 + lo);
  }

  /** `check_game_ownership`: the entitlement request's outcome is an input;
      a decoded answer passes iff it lists at least one item. */
  function CheckGameOwnership(fetched: JsonFetch<seq<string>>): (r: LResult<()>)
    ensures r.Ok? <==> fetched.Decoded? && |fetched.document| > 0
    ensures fetched.Decoded? && fetched.document == [] ==> r == Err(Auth("No Minecraft ownership found for this account"))
    ensures fetched.SendFailed? ==> r == Err(Auth("Ownership check failed: " + fetched.reason))
    ensures fetched.Undecodable? ==> r == Err(Auth("Failed to parse ownership response: " + fetched.reason))
  {
    match fetched
    case SendFailed(e) => Err(AuthError("Ownership check failed: " + e))
    case Undecodable(e) => Err(AuthError("Failed to parse ownership response: " + e))
    case Decoded(items) =>
      if items == [] then Err(AuthError("No Minecraft ownership found for this account")) else Ok(())
  }
}
