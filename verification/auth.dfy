/**
 The login modal's submit handler. There is no real authentication: the
 handler only decides, from the two form fields, which callbacks it fires.
 Its effect is modelled as the sequence of those callbacks, in order: the
 error-message setter, the login callback and the close callback.
 */
module AuthModal {
  import opened Types

  const EmptyFieldsError: string := "Preencha todos os campos."
  const AdminUsername: string := "admin"
  const AdminPassword: string := "admin"
  const AdminDisplayName: string := "Admin"

  datatype Event =
    | SetError(message: string)
    | OnLogin(username: string, role: UserRole)
    | OnClose

  /** The callbacks a submit fires, given the username and password typed in. */
  function HandleSubmit(username: string, password: string): (evs: seq<Event>)
    ensures |evs| >= 2 && evs[0] == SetError("")
    ensures (username == "" || password == "") <==> SetError(EmptyFieldsError) in evs
    ensures (username == "" || password == "") <==> OnClose !in evs
    ensures forall i :: 0 <= i < |evs| && evs[i] == OnClose ==>
              exists j :: 0 <= j < i && evs[j].OnLogin?
    ensures forall e :: e in evs && e.OnLogin? ==>
              && e.role != GUEST
              && (e.role == ADMIN <==> username == AdminUsername && password == AdminPassword)
              && (e.role == ADMIN ==> e.username == AdminDisplayName)
              && (e.role == USER ==> e.username == username)
  {
    if username == "" || password == "" then
      [SetError(""), SetError(EmptyFieldsError)]
    else
      var login := if username == AdminUsername && password == AdminPassword
        then OnLogin(AdminDisplayName, ADMIN)
        else OnLogin(username, USER);
      var evs := [SetError(""), login, OnClose];
      assert evs[1].OnLogin?;
      evs
  }

  /** The login a submit performs, if any. */
  function LoginOf(evs: seq<Event>): Option<User> {
    if evs == [] then None
    else if evs[0].OnLogin? then Some(User(evs[0].username, evs[0].role))
    else LoginOf(evs[1..])
  }

  /** A submit with both fields filled logs in exactly once; one with an empty field never does. */
  lemma SubmitLogsInOnce(username: string, password: string)
    ensures var evs := HandleSubmit(username, password);
      && (username != "" && password != "" <==> LoginOf(evs).Some?)
      && |set i | 0 <= i < |evs| && evs[i].OnLogin?| <= 1
  {
    var evs := HandleSubmit(username, password);
    if username == "" || password == "" {
      assert (set i | 0 <= i < |evs| && evs[i].OnLogin?) == {};
      assert evs[1..][1..] == [];
      assert LoginOf(evs) == LoginOf(evs[1..]) == LoginOf(evs[1..][1..]);
    } else {
      assert (set i | 0 <= i < |evs| && evs[i].OnLogin?) == {1};
      assert evs[1..][0] == evs[1];
    }
  }
}
