/** The unlocked root of one card, in memory only
    (card_authentication_session.cpp). */
module CardAuthentication {
  import opened Wrappers
  import opened VaultRuntime

  const ROOT_SIZE := 32

  class Authentication {
    var root: seq<bv8>
    /** Changes with every establishment. */
    var generation: nat

    constructor ()
      ensures !Authenticated() && generation == 0
    {
      root, generation := [], 0;
    }

    predicate Authenticated()
      reads this
    {
      |root| == ROOT_SIZE
    }

    method Establish(secret: seq<bv8>) returns (failure: Option<Error>)
      modifies this
      ensures failure.None? <==> |secret| == ROOT_SIZE && !old(Authenticated())
      ensures failure.None? ==> Authenticated() && root == secret && generation == old(generation) + 1
      ensures failure.Some? ==> root == old(root) && generation == old(generation)
    {
      if |secret| != ROOT_SIZE {
        return Some(InvalidArgument);
      }
      if Authenticated() {
        return Some(WrongState);
      }
      root := secret;
      generation := generation + 1;
      return None;
    }

    /** Work begun under one login can tell that the login is over: the
        generation never comes back. */
    method Clear()
      modifies this`root
      ensures !Authenticated()
    {
      root := [];
    }
  }
}
