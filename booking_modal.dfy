/**
 * The stand-alone booking modal component: a pure render of its props.
 */
module BookingModal {
  import opened Wrappers
  import opened Domain
  import UserDashboard

  const SendRequestLabel := "Send Booking Request"

  /** The props the render reads; the callbacks are not modelled. */
  datatype Props = Props(showBookingModal: bool, selectedRide: Option<Ride>, bookingForm: BookingForm)

  /** Nothing when closed or without a ride; otherwise the shared modal body with
      "Send Booking Request" on the submit button while seats are left. */
  function Render(p: Props): (v: Option<ModalView>)
    ensures v.None? <==> !p.showBookingModal || p.selectedRide.None?
    ensures v.Some? ==> v.value.available == Availability(p.selectedRide.value)
    ensures v.Some? ==> (v.value.picker.Selector? <==> v.value.available > 0)
    ensures v.Some? && v.value.picker.Selector? ==> v.value.picker.options == SeatOptions(v.value.available)
    ensures v.Some? ==> (v.value.submitDisabled <==>
      p.bookingForm.passengerName == "" || p.bookingForm.passengerPhone == "" || v.value.available <= 0)
    ensures v.Some? ==> v.value.submitLabel == (if v.value.available <= 0 then NoSeatsLabel else SendRequestLabel)
  {
    if !p.showBookingModal || p.selectedRide.None? then None
    else Some(SeatModal(p.selectedRide.value, p.bookingForm, SendRequestLabel))
  }

  /** Given the dashboard's state, this component and the dashboard's own modal show the
      same availability, seat choices and enabled state; only the submit label differs
      while seats are left. */
  lemma AgreesWithInlineModal(show: bool, ride: Ride, form: BookingForm)
    ensures var v := Render(Props(show, Some(ride), form));
      var w := UserDashboard.InlineModal(ride, form);
      show ==>
        && v.Some? && v.value.available == w.available && v.value.picker == w.picker
        && v.value.submitDisabled == w.submitDisabled
        && (v.value.submitLabel == w.submitLabel <==> w.available <= 0)
  {
  }

  /** A rendered modal on a ride with seats offers one to `min(available, 4)` seats. */
  lemma RenderedChoices(p: Props, k: int)
    requires Render(p).Some? && Render(p).value.available > 0
    requires 1 <= k <= Min(Render(p).value.available, MaxSeatsPerRequest)
    ensures Render(p).value.picker.Selector?
    ensures SeatOption(k, SeatLabel(k)) in Render(p).value.picker.options
  {
    SeatOptionsCoverRange(Render(p).value.available, k);
  }
}
