/**
 * The parts of the doctor page (src/pages/doctor.tsx) that are logic rather
 * than layout: its own copy of the appointment time slots and the name the
 * appointment is booked under.
 */
module Doctor {
  import opened Common
  import TimeSlots

  /**
   * `generateTimeOptions`, the page's own copy: the same loop as the
   * dashboard's, so the same 27 slots in the same order.
   */
  method GenerateTimeOptions() returns (times: seq<string>)
    ensures times == TimeSlots.Options()
  {
    times := [];
    var startHour := 7;
    var endHour := 20;
    var hour := startHour;
    while hour <= endHour
      invariant startHour <= hour <= endHour + 1
      invariant hour <= endHour ==> times == TimeSlots.Options()[..2 * (hour - startHour)]
      invariant hour > endHour ==> times == TimeSlots.Options()
    {
      TimeSlots.PushMark(times, hour);
      times := times + [TimeSlots.HourText(hour) + ":00"];
      if hour != endHour {
        TimeSlots.PushHalf(times, hour);
        times := times + [TimeSlots.HourText(hour) + ":30"];
      }
      hour := hour + 1;
    }
  }

  /**
   * The `username` of the appointment: `username || formData.get("username")`
   * with the page's optional `username` prop. A missing or empty prop falls
   * through to the form's field, which is None when the form has no such
   * field.
   */
  function AppointmentUsername(username: Option<string>, formUsername: Option<string>): (r: Option<string>)
    ensures username.Some? && username.value != "" ==> r == username
    ensures username.None? || username.value == "" ==> r == formUsername
  {
    if username.Some? && username.value != "" then username else formUsername
  }

  /** The form's hidden `username` input: `username || ""`. */
  function HiddenUsername(username: Option<string>): (r: string)
    ensures username.Some? ==> r == username.value
    ensures username.None? ==> r == ""
  {
    if username.Some? && username.value != "" then username.value else ""
  }

  /**
   * With the hidden input in the form, the appointment always carries a name:
   * the prop when it is given, the empty name otherwise.
   */
  lemma BookedUnderHiddenName(username: Option<string>)
    ensures AppointmentUsername(username, Some(HiddenUsername(username))).Some?
    ensures AppointmentUsername(username, Some(HiddenUsername(username))).value ==
      if username.Some? then username.value else ""
  {
  }
}
