/** `@nestjs/jwt` as an abstract token source. Signing is not modelled: `signer` is an
    arbitrary function of the claims, the requested lifetime and how many tokens were signed
    before, so nothing is assumed about which tokens coincide. */
module Jwt {

  /** The claims a token is signed over. */
  datatype JwtPayload = UserIdClaim(userId: nat) | EmailClaim(email: string)

  /** The `expiresIn` option; `ModuleDefault` is the lifetime configured for the module. */
  datatype ExpiresIn = OneHour | ThirtyDays | ModuleDefault

  class JwtService {
    const signer: (JwtPayload, ExpiresIn, nat) -> string
    var issued: nat

    constructor (signer: (JwtPayload, ExpiresIn, nat) -> string)
      ensures this.signer == signer && issued == 0
    {
      this.signer := signer;
      issued := 0;
    }

    /** `jwtService.sign(payload, { expiresIn })`. */
    method Sign(payload: JwtPayload, expiresIn: ExpiresIn) returns (token: string)
      modifies this
      ensures token == signer(payload, expiresIn, old(issued))
      ensures issued == old(issued) + 1
    {
      token := signer(payload, expiresIn, issued);
      issued := issued + 1;
    }
  }
}
