/** The appointments page: the medication list of the completion form, the
    request bodies and paths the page sends, the action buttons each card
    offers and the status badge. The server's answers and the page's
    refetch are parameters; only what the page sends and keeps is modelled. */
module AppointmentsPage {
  import opened Wrappers
  import opened Strings
  import opened Models
  import opened GoTime
  import MedicalService
  import MedicalHandler

  // ---- the medication list -------------------------------------------------

  /** One row of the completion form's medication list. */
  datatype MedEntry = MedEntry(medication: string, dosage: string)

  const BlankMed: MedEntry := MedEntry("", "")

  /** The two editable fields of a row (`keyof Medication`). */
  datatype MedField = MedicationField | DosageField

  /** A row with one field set to `value`. */
  function SetField(m: MedEntry, field: MedField, value: string): (r: MedEntry)
    ensures field == MedicationField ==> r.medication == value && r.dosage == m.dosage
    ensures field == DosageField ==> r.dosage == value && r.medication == m.medication
  {
    match field
    case MedicationField => m.(medication := value)
    case DosageField => m.(dosage := value)
  }

  /** `meds.filter((_, i) => i !== index)`: one pass over the rows, keeping
      every row whose position is not `index`. */
  function RemoveAt<T>(s: seq<T>, index: int): (r: seq<T>)
    ensures 0 <= index < |s| ==> r == s[..index] + s[index + 1..]
    ensures !(0 <= index < |s|) ==> r == s
    decreases |s|
  {
    if s == [] then []
    else (if index == 0 then [] else [s[0]]) + RemoveAt(s[1..], index - 1)
  }

  /** Removing a row keeps the others in their order: row `j` before the
      removed one stays at `j`, and row `j` after it moves to `j - 1`. */
  lemma RemoveAtPositions<T>(s: seq<T>, index: int)
    requires 0 <= index < |s|
    ensures |RemoveAt(s, index)| == |s| - 1
    ensures forall j :: 0 <= j < index ==> RemoveAt(s, index)[j] == s[j]
    ensures forall j :: index < j < |s| ==> RemoveAt(s, index)[j - 1] == s[j]
  {
    var r := RemoveAt(s, index);
    assert r == s[..index] + s[index + 1..];
    forall j | index < j < |s|
      ensures r[j - 1] == s[j]
    {
      assert r[j - 1] == s[index + 1..][j - 1 - index];
    }
  }

  /** Adding a blank row and removing it again gives the list back. */
  lemma AddThenRemove(meds: seq<MedEntry>)
    ensures RemoveAt(meds + [BlankMed], |meds|) == meds
  {
    assert (meds + [BlankMed])[..|meds|] == meds;
  }

  // ---- what the page sends -------------------------------------------------

  /** `parseInt` on a doctor option's value: an optional sign, then the run
      of leading digits; no digit at all is `NaN`, written here as `None`. */
  function ParseIntPrefix(s: string): (r: Option<int>)
    ensures s == [] ==> r.None?
  {
    if s != [] && (s[0] == '-' || s[0] == '+') then
      match ParseDigits(s[1..])
      case Some(n) => Some(if s[0] == '-' then -n else n)
      case None => None
    else ParseDigits(s)
  }

  function ParseDigits(s: string): (r: Option<int>)
    ensures r.Some? <==> s != [] && IsDigit(s[0])
    ensures r.Some? ==> r.value >= 0
  {
    var k := DigitPrefix(s);
    if k == 0 then None else Some(DecimalValue(s[..k]))
  }

  /** The length of the run of digits `s` starts with. */
  function DigitPrefix(s: string): (k: nat)
    ensures k <= |s| && AllDigits(s[..k])
    ensures k < |s| ==> !IsDigit(s[k])
    ensures k > 0 <==> s != [] && IsDigit(s[0])
  {
    if s == [] || !IsDigit(s[0]) then 0
    else
      var k := 1 + DigitPrefix(s[1..]);
      assert s[..k] == [s[0]] + s[1..][..k - 1];
      k
  }

  /** The value of a doctor option (`value={doc.ID}`) reads back as the id. */
  lemma ParseIntOfId(n: nat)
    ensures ParseIntPrefix(NatToString(n)) == Some(n)
  {
    var s := NatToString(n);
    DecimalRoundTrip(n);
    assert s[0] != '-' && s[0] != '+' by { assert IsDigit(s[0]); }
    DigitPrefixOfDigits(s);
    assert s[..|s|] == s;
  }

  /** A string of digits is one run of digits. */
  lemma {:induction false} DigitPrefixOfDigits(s: string)
    requires AllDigits(s)
    ensures DigitPrefix(s) == |s|
  {
    if s != [] {
      assert IsDigit(s[0]);
      assert forall i :: 0 <= i < |s| - 1 ==> s[1..][i] == s[i + 1];
      DigitPrefixOfDigits(s[1..]);
    }
  }

  /** The JSON body of the booking request: `doctor_id` is `null` when
      `parseInt` gives `NaN`. */
  datatype BookingBody = BookingBody(doctorId: Option<int>, date: string)

  /** The JSON body of the completion request. */
  function CompletionBody(diagnosis: string, notes: string, meds: seq<MedEntry>): (r: MedicalHandler.CompletionRequest)
    ensures r.diagnosis == diagnosis && r.notes == notes
    ensures |r.medications| == |meds|
    ensures forall i :: 0 <= i < |meds| ==>
      r.medications[i] == MedicalService.Medication(meds[i].medication, meds[i].dosage)
  {
    MedicalHandler.CompletionRequest(diagnosis, notes,
      seq(|meds|, i requires 0 <= i < |meds| => MedicalService.Medication(meds[i].medication, meds[i].dosage)))
  }

  datatype Payload = NoBody | Booking(booking: BookingBody) | Completion(completion: MedicalHandler.CompletionRequest)

  datatype Request = Request(verb: string, path: string, body: Payload)

  const AppointmentsPath: string := "/api/v1/appointments"

  /** The path of one appointment, with the id written by the template literal. */
  function AppointmentPath(id: int): string
  {
    AppointmentsPath + "/" + IntToString(id)
  }

  /** The id written into an appointment's path is the one the handlers read
      back from the `:id` segment. */
  lemma PathCarriesId(id: nat)
    requires id <= MaxUint32
    ensures AppointmentPath(id) == AppointmentsPath + "/" + NatToString(id)
    ensures MedicalHandler.PathId(NatToString(id)) == id
  {
    ParseIdRoundTrip(id);
  }

  // ---- the action buttons and the badge ------------------------------------

  datatype Action = Complete | Cancel | Delete

  /** The buttons a card shows for the viewer's role and the appointment's status. */
  function Actions(role: string, status: string): (r: set<Action>)
    ensures Complete in r <==> role == RoleDoctor && status == StatusScheduled
    ensures Cancel in r <==> status == StatusScheduled
    ensures Delete in r <==> role == RoleAdmin
  {
    (if role == RoleDoctor && status == StatusScheduled then {Complete} else {})
    + (if status == StatusScheduled then {Cancel} else {})
    + (if role == RoleAdmin then {Delete} else {})
  }

  /** A completed or cancelled appointment offers nothing but the admin's
      delete, and a patient is never offered completion or deletion. */
  lemma ActionsAfterScheduled(role: string, status: string)
    ensures status != StatusScheduled ==> Actions(role, status) == if role == RoleAdmin then {Delete} else {}
    ensures role == RolePatient ==> Actions(role, status) <= {Cancel}
    ensures Complete in Actions(role, status) ==> Cancel in Actions(role, status)
  {
    var r := Actions(role, status);
    if status != StatusScheduled {
      assert Complete !in r && Cancel !in r;
      if role == RoleAdmin {
        assert r == {Delete};
      } else {
        assert r == {};
      }
    }
  }

  /** The badge class of a status. */
  function Badge(status: string): (b: string)
    ensures b == "success" <==> status == StatusCompleted
    ensures b == "primary" <==> status == StatusScheduled
    ensures b in {"success", "primary", "warning"}
  {
    if status == StatusCompleted then "success"
    else if status == StatusScheduled then "primary"
    else "warning"
  }

  /** Every status outside the two named ones, cancelled among them, is a warning. */
  lemma BadgeOfCancelled()
    ensures Badge(StatusCancelled) == "warning"
  {
  }

  // ---- the page state ------------------------------------------------------

  class Page {
    var role: string
    var showBookModal: bool
    var showCompleteModal: Option<int>
    var selectedDoctor: string
    var bookingDate: string
    var diagnosis: string
    var notes: string
    var meds: seq<MedEntry>

    /** The page as it mounts: the stored role, `patient` when none (or an
        empty one) is stored, and every form empty. */
    constructor (stored: Option<string>)
      ensures role == if stored.Some? && stored.value != "" then stored.value else RolePatient
      ensures !showBookModal && showCompleteModal == None
      ensures selectedDoctor == "" && bookingDate == "" && diagnosis == "" && notes == "" && meds == []
    {
      role := if stored.Some? && stored.value != "" then stored.value else RolePatient;
      showBookModal := false;
      showCompleteModal := None;
      selectedDoctor, bookingDate := "", "";
      diagnosis, notes, meds := "", "", [];
    }

    /** `addMed`: one blank row at the end. */
    method AddMed()
      modifies this`meds
      ensures meds == old(meds) + [BlankMed]
    {
      meds := meds + [BlankMed];
    }

    /** `removeMed(index)`. */
    method RemoveMed(index: int)
      modifies this`meds
      ensures meds == RemoveAt(old(meds), index)
    {
      meds := RemoveAt(meds, index);
    }

    /** `updateMed(index, field, value)`: a copy of the list with one field of
        row `index` set. Outside the list, `newMeds[index]` is `undefined` and
        the assignment throws before the state is set. */
    method UpdateMed(index: int, field: MedField, value: string) returns (thrown: bool)
      modifies this`meds
      ensures thrown <==> !(0 <= index < |old(meds)|)
      ensures thrown ==> meds == old(meds)
      ensures !thrown ==> meds == old(meds)[index := SetField(old(meds)[index], field, value)]
    {
      if !(0 <= index < |meds|) {
        return true;
      }
      var newMeds := meds;
      newMeds := newMeds[index := SetField(newMeds[index], field, value)];
      meds := newMeds;
      thrown := false;
    }

    /** `resetBookForm`. */
    method ResetBookForm()
      modifies this`selectedDoctor, this`bookingDate
      ensures selectedDoctor == "" && bookingDate == ""
    {
      selectedDoctor := "";
      bookingDate := "";
    }

    /** `resetCompleteForm`. */
    method ResetCompleteForm()
      modifies this`diagnosis, this`notes, this`meds
      ensures diagnosis == "" && notes == "" && meds == []
    {
      diagnosis := "";
      notes := "";
      meds := [];
    }

    /** `handleBook`: posts the form; when the server accepts, the modal
        closes and the form is emptied, otherwise everything stays. */
    method HandleBook(accepted: bool) returns (sent: Request)
      modifies this`showBookModal, this`selectedDoctor, this`bookingDate
      ensures sent == Request("POST", AppointmentsPath,
                              Booking(BookingBody(ParseIntPrefix(old(selectedDoctor)), old(bookingDate))))
      ensures accepted ==> !showBookModal && selectedDoctor == "" && bookingDate == ""
      ensures !accepted ==>
        showBookModal == old(showBookModal) && selectedDoctor == old(selectedDoctor) && bookingDate == old(bookingDate)
    {
      sent := Request("POST", AppointmentsPath, Booking(BookingBody(ParseIntPrefix(selectedDoctor), bookingDate)));
      if accepted {
        showBookModal := false;
        ResetBookForm();
      }
    }

    /** `handleComplete`: without an open completion modal (or with id 0,
        which `!showCompleteModal` also treats as none) nothing is sent;
        otherwise the form goes out, and on success the modal closes and the
        form is emptied. */
    method HandleComplete(accepted: bool) returns (sent: Option<Request>)
      modifies this`showCompleteModal, this`diagnosis, this`notes, this`meds
      ensures old(showCompleteModal) in {None, Some(0)} ==>
        sent == None && showCompleteModal == old(showCompleteModal)
        && diagnosis == old(diagnosis) && notes == old(notes) && meds == old(meds)
      ensures old(showCompleteModal) !in {None, Some(0)} ==>
        sent == Some(Request("PUT", AppointmentPath(old(showCompleteModal).value) + "/complete",
                             Completion(CompletionBody(old(diagnosis), old(notes), old(meds)))))
      ensures old(showCompleteModal) !in {None, Some(0)} && accepted ==>
        showCompleteModal == None && diagnosis == "" && notes == "" && meds == []
      ensures !accepted ==>
        showCompleteModal == old(showCompleteModal)
        && diagnosis == old(diagnosis) && notes == old(notes) && meds == old(meds)
    {
      if showCompleteModal == None || showCompleteModal == Some(0) {
        return None;
      }
      var id := showCompleteModal.value;
      sent := Some(Request("PUT", AppointmentPath(id) + "/complete",
                           Completion(CompletionBody(diagnosis, notes, meds))));
      if accepted {
        showCompleteModal := None;
        ResetCompleteForm();
      }
    }
  }

  /** `handleCancel(id)`: a request only when the confirmation is accepted. */
  function HandleCancel(id: int, confirmed: bool): (sent: Option<Request>)
    ensures sent.Some? <==> confirmed
    ensures confirmed ==> sent == Some(Request("PUT", AppointmentPath(id) + "/cancel", NoBody))
  {
    if !confirmed then None else Some(Request("PUT", AppointmentPath(id) + "/cancel", NoBody))
  }

  /** `handleDelete(id)`: a request only when the confirmation is accepted. */
  function HandleDelete(id: int, confirmed: bool): (sent: Option<Request>)
    ensures sent.Some? <==> confirmed
    ensures confirmed ==> sent == Some(Request("DELETE", AppointmentPath(id), NoBody))
  {
    if !confirmed then None else Some(Request("DELETE", AppointmentPath(id), NoBody))
  }

  /** The medications of the completion body are the form's rows in order,
      so a fully served completion issues one prescription per row, in the
      page's order. */
  lemma CompletionIssuesRows(first: Id, consId: Id, diagnosis: string, notes: string, meds: seq<MedEntry>,
                               clock: nat -> Instant, k: nat)
    ensures var issued := MedicalService.Issued(first, consId, CompletionBody(diagnosis, notes, meds).medications, clock, k);
      && |issued| == |meds|
      && forall i :: 0 <= i < |meds| ==>
           issued[i].medication == meds[i].medication && issued[i].dosage == meds[i].dosage
           && issued[i].consultationId == consId && issued[i].status == StatusIssued
  {
  }
}
