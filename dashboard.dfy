/**
 * The parts of the dashboard page (src/pages/dashboard.tsx) that are logic
 * rather than layout: the time slots of the appointment form and the name
 * the appointment is booked under.
 */
module Dashboard {
  import opened Common
  import TimeSlots

  /** `generateTimeOptions`: each hour's mark, then its half hour unless it is the last hour. */
  method GenerateTimeOptions() returns (times: seq<string>)
    ensures times == TimeSlots.Options()
  {
    times := [];
    var startHour := 7;
    var endHour := 20;
    var hour := startHour;
    while hour <= endHour
      invariant startHour <= hour <= endHour + 1
      invariant hour <= endHour ==> times == TimeSlots.Options()[..2 * (hour - startHour)]
      invariant hour > endHour ==> times == TimeSlots.Options()
    {
      TimeSlots.PushMark(times, hour);
      times := times + [TimeSlots.HourText(hour) + ":00"];
      if hour != endHour {
        TimeSlots.PushHalf(times, hour);
        times := times + [TimeSlots.HourText(hour) + ":30"];
      }
      hour := hour + 1;
    }
  }

  /** The logged-in user, `{ username }`, once the profile has been fetched. */
  datatype User = User(username: string)

  /**
   * The `username` of the appointment: `user?.username || formData.get("username")`.
   * A missing user or an empty name falls through to the form's field, which
   * is None when the form has no such field.
   */
  function AppointmentUsername(user: Option<User>, formUsername: Option<string>): (r: Option<string>)
    ensures user.Some? && user.value.username != "" ==> r == Some(user.value.username)
    ensures user.None? || user.value.username == "" ==> r == formUsername
  {
    if user.Some? && user.value.username != "" then Some(user.value.username) else formUsername
  }

  /** The form's hidden `username` input: `user?.username || ""`. */
  function HiddenUsername(user: Option<User>): (r: string)
    ensures user.Some? ==> r == user.value.username
    ensures user.None? ==> r == ""
  {
    if user.Some? && user.value.username != "" then user.value.username else ""
  }

  /**
   * With the hidden input in the form, the appointment always carries a name:
   * the user's once the profile is known, the empty name before that.
   */
  lemma BookedUnderHiddenName(user: Option<User>)
    ensures AppointmentUsername(user, Some(HiddenUsername(user))).Some?
    ensures AppointmentUsername(user, Some(HiddenUsername(user))).value ==
      if user.Some? then user.value.username else ""
  {
  }
}
