// The values that cross the package's API (model.go), without their heap layout: see Cloning for
// the slices, maps and byte buffers behind them. Times are nanosecond counts.

module Model {
  import opened Wrappers

  datatype AuthorizationSession = AuthorizationSession(
    state: string, pkceVerifier: string, stateVerificationDisabled: bool, createdAt: int)

  datatype Callback = Callback(code: string, state: string, error: string)

  // None is a nil slice, which Clone and the user loaders tell from an empty one. Metadata is only
  // modelled in Cloning: the OAuth provider never sets it.
  datatype Token = Token(accessToken: string, refreshToken: string, tokenType: string, expiry: int, scopes: Option<seq<string>>)

  datatype User = User(
    provider: string, id: string, nickname: string, name: string, email: string, avatarURL: string, token: Token,
    raw: Option<string>)
}
