/**
 * The security helpers the core calls but whose code is not part of this
 * model (`JWTManager`, `PasswordManager`, `pwd_context` and the token
 * lifetime setting). They are passed around as the fields of an `Env`.
 */
module Security {
  import opened Wrappers

  /**
   * The claims `JWTManager.verify_jwt` returns for a token it accepts:
   * the non-null values of `user_id`, `role` and `exp`, and whether the
   * dictionary holds any other key (another claim such as `iat`, or one of
   * those three mapped to null).
   */
  datatype Payload = Payload(userId: Option<int>, role: Option<string>, expiresAt: Option<int>, otherClaims: bool)

  /**
   * Python truthiness of `verify_jwt`'s result: `None` and an empty claim
   * dictionary are false; a dictionary with any key at all is true, even
   * when it names no user.
   */
  predicate IsFalsy(payload: Option<Payload>)
  {
    || payload.None?
    || (payload.value.userId.None? && payload.value.role.None? && payload.value.expiresAt.None?
        && !payload.value.otherClaims)
  }

  /**
   * The foreign functions, fixed for the life of the process:
   * - `verifyJwt(token)`: `JWTManager.verify_jwt` at the current instant;
   * - `createJwt(userId, role, now)`: `JWTManager.create_jwt({"user_id": .., "role": ..})`;
   * - `hashPassword(plain)`: `PasswordManager.hash_password`;
   * - `verifyPassword(plain, digest)`: `pwd_context.verify`;
   * - `isStrongPassword(plain)`: `PasswordManager.is_strong_password`;
   * - `accessTokenExpireMinutes`: the `ACCESS_TOKEN_EXPIRE_MINUTES` setting.
   */
  datatype Env = Env(
    verifyJwt: string -> Option<Payload>,
    createJwt: (int, string, int) -> string,
    hashPassword: string -> string,
    verifyPassword: (string, string) -> bool,
    isStrongPassword: string -> bool,
    accessTokenExpireMinutes: int)
}
