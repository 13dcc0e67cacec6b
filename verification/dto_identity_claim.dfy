/** The data-transfer object that carries one identity claim to an HTTP client. */
module Model {

  /**
   * A `System.Security.Claims.Claim`: its type and value, plus the data the
   * DTO deliberately does not carry.
   */
  datatype Claim = Claim(
    Type: string,
    Value: string,
    ValueType: string,
    Issuer: string,
    OriginalIssuer: string,
    Properties: map<string, string>)

  /** DTOIdentityClaim: only the claim's type and value. */
  datatype DTOIdentityClaim = DTOIdentityClaim(Type: string, Value: string)

  /** FromClaim: copies the claim's type and value and nothing else. */
  function FromClaim(c: Claim): (d: DTOIdentityClaim)
    ensures d.Type == c.Type && d.Value == c.Value
  {
    DTOIdentityClaim(c.Type, c.Value)
  }

  /** Two claims give the same DTO exactly when their types and values agree; issuer and the rest are dropped. */
  lemma FromClaimReadsOnlyTypeAndValue(c1: Claim, c2: Claim)
    ensures FromClaim(c1) == FromClaim(c2) <==> c1.Type == c2.Type && c1.Value == c2.Value
  {
  }
}
