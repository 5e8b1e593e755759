/** `DriverJWTAuthentication.get_user` (backend/project/myapp/authentication.py): the user a
    validated access token stands for is looked up in the Driver table, or in the Conductor
    table when the token's role claim says "conductor". Nothing is written. */
module Authentication {
  import opened Wrappers

  /** The claims of a validated token that `get_user` reads. `None` is a missing claim. */
  datatype Token = Token(userId: Option<int>, role: Option<string>)

  datatype AuthTable = DriverTable | ConductorTable

  datatype AuthResult<D, C> =
    | AsDriver(driver: D)
    | AsConductor(conductor: C)
    | InvalidToken(message: string)   // raise InvalidToken(message)
    | MissingClaim(claim: string)     // the KeyError of validated_token[claim]

  const DefaultRole: string := "driver"
  const UserNotFound: string := "User not found"

  /** `validated_token.get("role", "driver")`. */
  function RoleClaim(t: Token): string {
    if t.role.Some? then t.role.value else DefaultRole
  }

  /** The table consulted: Conductor for the role "conductor", Driver for every other role. */
  function TableFor(t: Token): (table: AuthTable)
    ensures table == ConductorTable <==> t.role == Some("conductor")
  {
    if RoleClaim(t) == "conductor" then ConductorTable else DriverTable
  }

  function GetUser<D, C>(t: Token, drivers: map<int, D>, conductors: map<int, C>): (r: AuthResult<D, C>)
    ensures t.userId.None? <==> r == MissingClaim("user_id")
    ensures r.AsConductor? <==> t.userId.Some? && TableFor(t) == ConductorTable && t.userId.value in conductors
    ensures r.AsConductor? ==> r.conductor == conductors[t.userId.value]
    ensures r.AsDriver? <==> t.userId.Some? && TableFor(t) == DriverTable && t.userId.value in drivers
    ensures r.AsDriver? ==> r.driver == drivers[t.userId.value]
    ensures r.InvalidToken? ==> r.message == UserNotFound
  {
    if t.userId.None? then MissingClaim("user_id")
    else
      var id := t.userId.value;
      if TableFor(t) == ConductorTable then
        if id in conductors then AsConductor(conductors[id]) else InvalidToken(UserNotFound)
      else
        if id in drivers then AsDriver(drivers[id]) else InvalidToken(UserNotFound)
  }

  /** Only the chosen table is consulted: the other table's contents never affect the result. */
  lemma OnlyChosenTableConsulted<D, C>(t: Token, drivers: map<int, D>, drivers': map<int, D>,
                                       conductors: map<int, C>, conductors': map<int, C>)
    ensures TableFor(t) == ConductorTable ==> GetUser(t, drivers, conductors) == GetUser(t, drivers', conductors)
    ensures TableFor(t) == DriverTable ==> GetUser(t, drivers, conductors) == GetUser(t, drivers, conductors')
  {
  }

  /** A user missing from the chosen table is rejected, even when the other table has that id. */
  lemma NoFallback<D, C>(t: Token, drivers: map<int, D>, conductors: map<int, C>)
    requires t.userId.Some?
    requires TableFor(t) == ConductorTable ==> t.userId.value !in conductors
    requires TableFor(t) == DriverTable ==> t.userId.value !in drivers
    ensures GetUser(t, drivers, conductors) == InvalidToken(UserNotFound)
  {
  }

  /** A token without a role claim is treated as a driver's token. */
  lemma MissingRoleMeansDriver<D, C>(id: int, drivers: map<int, D>, conductors: map<int, C>)
    ensures GetUser(Token(Some(id), None), drivers, conductors)
         == GetUser(Token(Some(id), Some("driver")), drivers, conductors)
  {
  }
}
