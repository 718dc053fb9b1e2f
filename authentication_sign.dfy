/** The result of a successful authentication (contract/authentication_sign.go). */
module AuthenticationSigns {

  /** `gender` is documented as 1 = male, 2 = female, but nothing enforces it. */
  datatype AuthenticationSign = AuthenticationSign(
    token: string,
    publisherUserId: string,
    age: int,
    gender: int)

  /** `NewAuthenticationSign`: copies its arguments, whatever they are. */
  function NewAuthenticationSign(token: string, publisherUserId: string, age: int, gender: int): (r: AuthenticationSign)
    ensures r.token == token && r.publisherUserId == publisherUserId
    ensures r.age == age && r.gender == gender
  {
    AuthenticationSign(token, publisherUserId, age, gender)
  }
}
