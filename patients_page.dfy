/** The patient list page: the search filter and the patient detail view,
    which shows the record id and the first entries of the history the
    server returns. */
module PatientsPage {
  import opened Wrappers
  import opened Seqs
  import opened Strings
  import opened Search
  import opened Models
  import MedicalService

  /** A row of `/api/v1/patients` as the page reads it. */
  datatype PatientView = PatientView(id: nat, name: string, email: string, gender: string)

  /** `filteredPatients`. */
  function FilteredPatients(patients: seq<PatientView>, term: string): (r: seq<PatientView>)
    ensures forall p :: p in r <==> p in patients && MatchesSearch(p.name, p.email, term)
    ensures IsSubsequence(r, patients)
  {
    FilterIsSubsequence(patients, (p: PatientView) => MatchesSearch(p.name, p.email, term));
    Filter(patients, (p: PatientView) => MatchesSearch(p.name, p.email, term))
  }

  /** With an empty search box every patient is listed, in order. */
  lemma EmptySearchKeepsAll(patients: seq<PatientView>)
    ensures FilteredPatients(patients, "") == patients
  {
    var p := (q: PatientView) => MatchesSearch(q.name, q.email, "");
    forall q | q in patients ensures p(q) {
      EmptySearchMatches(q.name, q.email);
    }
    FilterAll(patients, p);
  }

  predicate IsCompleted(a: Appointment) { a.status == StatusCompleted }

  /** "Past Appointments": the first three completed appointments of the
      history, in the server's order; nothing before the history arrives. */
  function PastAppointments(history: Option<MedicalService.History>): (r: seq<Appointment>)
    ensures history.None? ==> r == []
    ensures |r| <= 3
    ensures forall a :: a in r ==> IsCompleted(a)
    ensures history.Some? ==> IsSubsequence(r, history.value.appointments)
  {
    match history
    case None => []
    case Some(h) =>
      var done := Filter(h.appointments, IsCompleted);
      FilterIsSubsequence(h.appointments, IsCompleted);
      TakeIsSubsequence(done, 3);
      SubsequenceTrans(Take(done, 3), done, h.appointments);
      Take(done, 3)
  }

  /** The "No past consultations found." note. */
  predicate NoConsultationsShown(history: Option<MedicalService.History>)
  {
    history.None? || |Filter(history.value.appointments, IsCompleted)| == 0
  }

  /** The note is shown exactly when the list above it is empty, that is
      when the history has no completed appointment. */
  lemma NoConsultationsIffEmpty(history: Option<MedicalService.History>)
    ensures NoConsultationsShown(history) <==> PastAppointments(history) == []
    ensures history.Some? ==>
      (NoConsultationsShown(history) <==> forall a :: a in history.value.appointments ==> !IsCompleted(a))
  {
    if history.Some? {
      var done := Filter(history.value.appointments, IsCompleted);
      if |done| > 0 {
        assert done[0] in done;
        assert |Take(done, 3)| > 0;
      }
    }
  }

  /** "Recent Prescriptions": the first three of the history. */
  function RecentPrescriptions(history: Option<MedicalService.History>): (r: seq<Prescription>)
    ensures history.None? ==> r == []
    ensures history.Some? ==> r == history.value.prescriptions[..if |history.value.prescriptions| < 3 then |history.value.prescriptions| else 3]
  {
    match history
    case None => []
    case Some(h) => Take(h.prescriptions, 3)
  }

  /** The "No active prescriptions." note. */
  predicate NoPrescriptionsShown(history: Option<MedicalService.History>)
  {
    history.None? || |history.value.prescriptions| == 0
  }

  lemma NoPrescriptionsIffEmpty(history: Option<MedicalService.History>)
    ensures NoPrescriptionsShown(history) <==> RecentPrescriptions(history) == []
  {
  }

  /** `ID.toString().padStart(5, '0')`. */
  function RecordId(id: nat): (r: string)
    ensures |r| == if |NatToString(id)| < 5 then 5 else |NatToString(id)|
  {
    PadStart(IntToString(id), 5, '0')
  }

  /** The record id is all digits and reads back as the patient's id. */
  lemma RecordIdReadsBack(id: nat)
    ensures AllDigits(RecordId(id)) && DecimalValue(RecordId(id)) == id
    ensures |RecordId(id)| >= 5
  {
    DecimalRoundTrip(id);
    PadZerosReadsBack(IntToString(id), 5);
  }
}
