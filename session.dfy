/** A session with the component, as its caller sees it through the contracts alone. */
module AppointmentListClient {
  import opened Wrappers
  import opened AppointmentList

  method CheckupSession()
  {
    var c := new Component([], false);
    var checkup := Payload(None, Some("Checkup"), Some("2024-01-01"), Some("09:00"), Some("09:30"),
                           Some("Clinic A"), Some("General"), Some("pending"));
    c.HandleAddEdit(checkup, "42");
    assert |c.appointments| == 1 && c.stored == c.appointments;
    assert c.appointments[0].id == "42" && c.appointments[0].status == Some("pending");

    var first := c.appointments[0];
    c.HandleEdit(first);
    c.HandleAddEdit(NoChanges.(status := Some("completed")), "43");
    assert c.appointments == [first.(status := Some("completed"))];
    assert !c.showForm && c.editing == None;

    c.OpenDeleteModal("42");
    c.ConfirmDelete();
    assert c.appointments == [] && c.stored == [];
  }
}
