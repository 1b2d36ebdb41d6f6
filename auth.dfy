/**
 * The browser-stored sign-in state that the login and registration pages write, and the
 * redirect they take once the simulated request succeeds.
 */
module Auth {
  import opened Wrappers

  /** The two pages a successful sign-in can lead to. */
  datatype Route = DriverDetailsPage | VehicleDetailsPage

  const PENDING_TRUE := "true"

  /** `pendingLoginAfterVehicle === 'true'` sends the user on to the driver details, anything else to the vehicle details. */
  function RouteAfterSignIn(pending: Option<string>): (r: Route)
    ensures r == DriverDetailsPage <==> pending == Some(PENDING_TRUE)
  {
    if pending == Some(PENDING_TRUE) then DriverDetailsPage else VehicleDetailsPage
  }

  /** The storage keys `isAuthenticated`, `pendingLoginAfterVehicle` and the email held in `userSession`. */
  class Session {
    var isAuthenticated: bool
    var pendingLoginAfterVehicle: Option<string>
    var userEmail: Option<string>

    constructor (pending: Option<string>)
      ensures !isAuthenticated && pendingLoginAfterVehicle == pending && userEmail == None
    {
      isAuthenticated := false;
      pendingLoginAfterVehicle := pending;
      userEmail := None;
    }

    /**
     * The success path shared by both pages: store the session and the flag, then consume a
     * pending flag of 'true' and choose the route.
     */
    method CompleteSignIn(email: string) returns (route: Route)
      modifies this
      ensures isAuthenticated && userEmail == Some(email)
      ensures route == RouteAfterSignIn(old(pendingLoginAfterVehicle))
      ensures old(pendingLoginAfterVehicle) == Some(PENDING_TRUE) ==> pendingLoginAfterVehicle == None
      ensures old(pendingLoginAfterVehicle) != Some(PENDING_TRUE) ==>
                pendingLoginAfterVehicle == old(pendingLoginAfterVehicle)
    {
      userEmail := Some(email);
      isAuthenticated := true;
      if pendingLoginAfterVehicle == Some(PENDING_TRUE) {
        pendingLoginAfterVehicle := None;
        route := DriverDetailsPage;
      } else {
        route := VehicleDetailsPage;
      }
    }
  }

  /**
   * A consumed flag does not redirect a second time: whatever the flag held, a second sign-in
   * in a row goes to the vehicle details.
   */
  method SignInTwice(session: Session, email: string) returns (first: Route, second: Route)
    modifies session
    ensures first == RouteAfterSignIn(old(session.pendingLoginAfterVehicle))
    ensures second == VehicleDetailsPage
    ensures session.isAuthenticated && session.userEmail == Some(email)
  {
    first := session.CompleteSignIn(email);
    second := session.CompleteSignIn(email);
  }
}
