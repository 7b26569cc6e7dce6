/**
 The authentication middleware's header handling: the wallet address is the
 Authorization header with an optional `Bearer ` prefix removed, must have at
 least ten characters, and is lower-cased to form the lookup key. A header
 is absent (None) or a string; the empty string is falsy like an absent one.
 */
module Auth {
  import opened Common
  import opened Text

  datatype AuthError = MissingHeader | InvalidWalletAddress

  const BearerPrefix: string := "Bearer "

  /** The minimum length of a wallet address. */
  const MinAddressLength: nat := 10

  /** `authHeader.startsWith('Bearer ') ? authHeader.substring(7) : authHeader` */
  function StripBearer(header: string): (a: string)
    ensures StartsWith(header, BearerPrefix) ==> BearerPrefix + a == header
    ensures !StartsWith(header, BearerPrefix) ==> a == header
  {
    if StartsWith(header, BearerPrefix) then header[|BearerPrefix|..] else header
  }

  /** The wallet address the middleware resolves the user by, or why the request is refused. */
  function Authenticate(header: Option<string>): (r: Result<string, AuthError>)
    ensures r == Err(MissingHeader) <==> header.None? || header.value == ""
    ensures r.Ok? <==> header.Some? && |StripBearer(header.value)| >= MinAddressLength
    ensures r.Ok? ==> r.value == ToLower(StripBearer(header.value))
  {
    if header.None? || header.value == "" then Err(MissingHeader)
    else
      var address := StripBearer(header.value);
      if address == "" || |address| < MinAddressLength then Err(InvalidWalletAddress)
      else Ok(ToLower(address))
  }

  /** `getWalletAddress`: the same key without the length check; null only for a missing header. */
  function GetWalletAddress(header: Option<string>): (r: Option<string>)
    ensures r.None? <==> header.None? || header.value == ""
    ensures r.Some? ==> r.value == ToLower(StripBearer(header.value))
  {
    if header.None? || header.value == "" then None
    else Some(ToLower(StripBearer(header.value)))
  }

  /** Wherever the middleware accepts a header, the helper reads the same key from it. */
  lemma WalletAddressAgrees(header: Option<string>)
    ensures Authenticate(header).Ok? ==> GetWalletAddress(header) == Some(Authenticate(header).value)
    ensures GetWalletAddress(header).None? ==> Authenticate(header) == Err(MissingHeader)
  {
  }

  /** The key is already in normal form: lower-casing it again changes nothing. */
  lemma KeyIsLowerCase(header: Option<string>)
    requires Authenticate(header).Ok?
    ensures ToLower(Authenticate(header).value) == Authenticate(header).value
  {
    ToLowerIdempotent(StripBearer(header.value));
  }

  /**
   The same address sent with the `Bearer ` prefix, or bare in any letter
   case, resolves to the same user or is refused in the same way.
   */
  lemma {:induction false} SameUserAnyForm(a1: string, a2: string)
    requires ToLower(a1) == ToLower(a2)
    requires a2 != "" && !StartsWith(a2, BearerPrefix)
    ensures Authenticate(Some(BearerPrefix + a1)) == Authenticate(Some(a2))
  {
    var h := BearerPrefix + a1;
    assert h[..|BearerPrefix|] == BearerPrefix;
    assert StripBearer(h) == a1;
    assert |a1| == |ToLower(a1)| == |a2|;
    assert StripBearer(a2) == a2;
  }
}
