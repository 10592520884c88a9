/** The hospital appointment tracker: a doctor list and an appointment list,
    each with its own id counter (starting at 101 and at 1). An appointment is
    booked only against the id of a registered doctor. */
module Hospital {
  import opened Store
  import Text

  const FirstDoctorId := 101
  const FirstAppointmentId := 1
  const Scheduled := "Scheduled"

  datatype Doctor = Doctor(id: int, name: string, specialization: string, timings: string)

  /** A patient exists only inside the appointment it is booked for. */
  datatype Patient = Patient(name: string, age: int, disease: string)

  /** A booked appointment; `patient` is the patient's display string and
      `time` the booking timestamp, supplied by the caller. */
  datatype Appointment = Appointment(id: int, doctorId: int, doctorName: string,
                                     patient: string, time: string, status: string)

  /** The state the system works on. */
  datatype HospitalData = HospitalData(doctors: seq<Doctor>, appointments: seq<Appointment>,
                                       nextDoctorId: int, nextAppointmentId: int)

  /** The persisted document: the same fields, each doctor saved as the
      dictionary `to_dict` makes of it. */
  datatype HospitalDoc = HospitalDoc(doctors: seq<Record>, appointments: seq<Appointment>,
                                     nextDoctorId: int, nextAppointmentId: int)

  /** The document `_load_data` gives: the decoded one, or the default
      skeleton when the file is absent, empty or corrupted. */
  function LoadDocument(f: StoredFile<HospitalDoc>): (doc: HospitalDoc)
    ensures f.Parsed? ==> doc == f.doc
    ensures !f.Parsed? ==>
      doc.doctors == [] && doc.appointments == [] && doc.nextDoctorId == 101 && doc.nextAppointmentId == 1
  {
    Load(f, HospitalDoc([], [], FirstDoctorId, FirstAppointmentId))
  }

  // ---------------------------------------------------------------------
  // Serialisation of a doctor

  /** `Doctor(**d)` as written: the constructor's parameters are
      `doctor_id`, `name`, `specialization` and `timings`, so a dictionary
      with any other key, or without one of these, is refused (a TypeError). */
  function DoctorFromKwargs(r: Record): (doc: Option<Doctor>)
    ensures "id" in r ==> doc.None?
    ensures doc.Some? ==> "doctor_id" in r && r["doctor_id"] == Int(doc.value.id)
  {
    if r.Keys == {"doctor_id", "name", "specialization", "timings"}
       && r["doctor_id"].Int? && r["name"].Str? && r["specialization"].Str? && r["timings"].Str?
    then Some(Doctor(r["doctor_id"].i, r["name"].s, r["specialization"].s, r["timings"].s))
    else None
  }

  /** The rebuild the saved format calls for: a doctor from a dictionary with
      exactly the four keys `to_dict` writes, holding values of the right
      kind. */
  function DoctorFromDict(r: Record): (doc: Option<Doctor>)
    ensures doc.Some? ==> "id" in r && r["id"] == Int(doc.value.id)
  {
    if r.Keys == {"id", "name", "specialization", "timings"}
       && r["id"].Int? && r["name"].Str? && r["specialization"].Str? && r["timings"].Str?
    then Some(Doctor(r["id"].i, r["name"].s, r["specialization"].s, r["timings"].s))
    else None
  }

  /** `Doctor.to_dict`: the saved dictionary has the keys `id`, `name`,
      `specialization` and `timings`; it rebuilds to the same doctor by its
      saved keys, and never through the constructor as written. */
  function DoctorToDict(doc: Doctor): (r: Record)
    ensures r.Keys == {"id", "name", "specialization", "timings"}
    ensures DoctorFromDict(r) == Some(doc)
    ensures DoctorFromKwargs(r) == None
  {
    map["id" := Int(doc.id), "name" := Str(doc.name),
        "specialization" := Str(doc.specialization), "timings" := Str(doc.timings)]
  }

  /** A dictionary rebuilds to a doctor exactly when it is that doctor's
      saved dictionary. */
  lemma DoctorDictRoundTrip(doc: Doctor, r: Record)
    ensures DoctorFromDict(r) == Some(doc) <==> r == DoctorToDict(doc)
  {
    var d := DoctorToDict(doc);
    if DoctorFromDict(r) == Some(doc) {
      assert r.Keys == d.Keys;
      forall k | k in r ensures r[k] == d[k] {
        assert k == "id" || k == "name" || k == "specialization" || k == "timings";
      }
    }
  }

  /** A dictionary fits `Doctor(**d)` and builds `doc` exactly when it holds
      `doc`'s fields under the constructor's own parameter names. */
  lemma DoctorKwargsRoundTrip(doc: Doctor, r: Record)
    ensures DoctorFromKwargs(r) == Some(doc) <==>
      r == map["doctor_id" := Int(doc.id), "name" := Str(doc.name),
               "specialization" := Str(doc.specialization), "timings" := Str(doc.timings)]
  {
    var d := map["doctor_id" := Int(doc.id), "name" := Str(doc.name),
                 "specialization" := Str(doc.specialization), "timings" := Str(doc.timings)];
    if DoctorFromKwargs(r) == Some(doc) {
      assert r.Keys == d.Keys;
      forall k | k in r ensures r[k] == d[k] {
        assert k == "doctor_id" || k == "name" || k == "specialization" || k == "timings";
      }
    }
  }

  // ---------------------------------------------------------------------
  // Saving and starting

  /** `_save_state`: the document written back. */
  function Save(d: HospitalData): (doc: HospitalDoc)
    ensures |doc.doctors| == |d.doctors| && doc.appointments == d.appointments
    ensures forall i :: 0 <= i < |d.doctors| ==> doc.doctors[i] == DoctorToDict(d.doctors[i])
    ensures doc.nextDoctorId == d.nextDoctorId && doc.nextAppointmentId == d.nextAppointmentId
  {
    HospitalDoc(MapSeq(d.doctors, DoctorToDict), d.appointments, d.nextDoctorId, d.nextAppointmentId)
  }

  /** What `HospitalSystem()` makes of the loaded document, as written: every
      saved doctor goes through `Doctor(**d)`, so the start fails (nothing)
      as soon as one dictionary does not fit the constructor. */
  function RebuildAsWritten(doc: HospitalDoc): (r: Option<HospitalData>)
    ensures r.Some? <==> forall i :: 0 <= i < |doc.doctors| ==> DoctorFromKwargs(doc.doctors[i]).Some?
    ensures (exists i :: 0 <= i < |doc.doctors| && "id" in doc.doctors[i]) ==> r.None?
    ensures r.Some? ==> (|r.value.doctors| == |doc.doctors| && r.value.appointments == doc.appointments
      && r.value.nextDoctorId == doc.nextDoctorId && r.value.nextAppointmentId == doc.nextAppointmentId)
  {
    match DecodeAll(doc.doctors, DoctorFromKwargs)
    case None => None
    case Some(ds) => Some(HospitalData(ds, doc.appointments, doc.nextDoctorId, doc.nextAppointmentId))
  }

  /** The start the saved format calls for: every saved doctor is rebuilt
      from the keys `to_dict` writes. */
  function Rebuild(doc: HospitalDoc): (r: Option<HospitalData>)
    ensures r.Some? <==> forall i :: 0 <= i < |doc.doctors| ==> DoctorFromDict(doc.doctors[i]).Some?
    ensures r.Some? ==> (|r.value.doctors| == |doc.doctors| && r.value.appointments == doc.appointments
      && r.value.nextDoctorId == doc.nextDoctorId && r.value.nextAppointmentId == doc.nextAppointmentId)
  {
    match DecodeAll(doc.doctors, DoctorFromDict)
    case None => None
    case Some(ds) => Some(HospitalData(ds, doc.appointments, doc.nextDoctorId, doc.nextAppointmentId))
  }

  /** As written, a saved system holding a doctor never starts again: the
      first saved dictionary has the key `id`, which `Doctor(**d)` refuses.
      The first run seeds two doctors, so every later run fails. */
  lemma SavedDoctorsNeverRestart(d: HospitalData)
    requires d.doctors != []
    ensures RebuildAsWritten(Save(d)) == None
  {
    assert "id" in Save(d).doctors[0];
  }

  /** With the rebuild the saved format calls for, starting from a saved
      system gives back the system that was saved, and only a saved system
      rebuilds to it. */
  lemma {:induction false} SaveRebuildRoundTrip(d: HospitalData, doc: HospitalDoc)
    ensures Rebuild(Save(d)) == Some(d)
    ensures Rebuild(doc) == Some(d) ==> Save(d) == doc
  {
    var saved := Save(d);
    assert forall i :: 0 <= i < |d.doctors| ==> DoctorFromDict(saved.doctors[i]) == Some(d.doctors[i]);
    var r := Rebuild(saved);
    assert r.value.doctors == d.doctors;
    if Rebuild(doc) == Some(d) {
      forall i | 0 <= i < |doc.doctors| ensures doc.doctors[i] == saved.doctors[i] {
        assert DoctorFromDict(doc.doctors[i]) == Some(d.doctors[i]) by {
          var ds := DecodeAll(doc.doctors, DoctorFromDict).value;
          assert ds == d.doctors;
        }
        DoctorDictRoundTrip(d.doctors[i], doc.doctors[i]);
      }
    }
  }

  // ---------------------------------------------------------------------
  // The patient string

  function DigitChar(d: nat): char
    requires d < 10
  {
    ('0' as int + d) as char
  }

  predicate AllDigits(s: string)
  {
    forall i :: 0 <= i < |s| ==> '0' <= s[i] <= '9'
  }

  /** Python's `str` of a non-negative integer: its decimal digits, without
      leading zeros. */
  function NatToString(n: nat): (s: string)
    ensures |s| >= 1 && AllDigits(s)
    ensures n > 0 ==> s[0] != '0'
    ensures n == 0 ==> s == "0"
    decreases n
  {
    if n < 10 then [DigitChar(n)] else NatToString(n / 10) + [DigitChar(n % 10)]
  }

  /** Python's `str` of an integer: a minus sign exactly for a negative
      number, then the digits of its magnitude. */
  function IntToString(n: int): (s: string)
    ensures |s| >= 1 && (s[0] == '-' <==> n < 0)
    ensures n >= 0 ==> AllDigits(s) && ParseNat(s) == n
    ensures n < 0 ==> |s| >= 2 && AllDigits(s[1..]) && ParseNat(s[1..]) == -n
    ensures n != 0 ==> s[if n < 0 then 1 else 0] != '0'
    ensures n == 0 ==> s == "0"
  {
    ParseNatToString(if n < 0 then -n else n);
    if n < 0 then "-" + NatToString(-n) else NatToString(n)
  }

  /** The value of a string of decimal digits. */
  function ParseNat(s: string): nat
    requires AllDigits(s)
  {
    if s == [] then 0 else ParseNat(s[..|s| - 1]) * 10 + (s[|s| - 1] as int - '0' as int)
  }

  /** Reading back the digits of a number gives the number. */
  lemma {:induction false} ParseNatToString(n: nat)
    ensures ParseNat(NatToString(n)) == n
  {
    if n >= 10 {
      var s := NatToString(n);
      assert s[..|s| - 1] == NatToString(n / 10);
      ParseNatToString(n / 10);
    }
  }

  /** `Patient.__str__`: the name, then the age and the condition in
      parentheses. */
  function PatientString(p: Patient): (s: string)
    ensures |s| >= |p.name| + |p.disease| + 22
    ensures s[..|p.name|] == p.name && s[|p.name|..|p.name| + 7] == " (Age: "
    ensures s[|s| - |p.disease| - 14..] == ", Condition: " + p.disease + ")"
  {
    p.name + " (Age: " + IntToString(p.age) + ", Condition: " + p.disease + ")"
  }

  /** The patient string is `name (Age: a, Condition: d)`, and the age field
      reads back as the patient's age. */
  lemma PatientStringFields(p: Patient)
    requires p.age >= 0
    ensures var s := PatientString(p);
      var a := NatToString(p.age);
      var k := |p.name| + 7;
      && |s| == k + |a| + 14 + |p.disease|
      && s[..|p.name|] == p.name
      && s[|p.name|..k] == " (Age: "
      && AllDigits(s[k..k + |a|]) && ParseNat(s[k..k + |a|]) == p.age
      && s[k + |a|..] == ", Condition: " + p.disease + ")"
  {
    var s := PatientString(p);
    var a := NatToString(p.age);
    var k := |p.name| + 7;
    assert s == (p.name + " (Age: ") + a + (", Condition: " + p.disease + ")");
    assert s[k..k + |a|] == a;
    ParseNatToString(p.age);
  }

  /** `register_patient` with the typed values as parameters: the age is
      accepted only when it is positive (a rejected one is asked for again),
      and the name and the disease are stored with the whitespace around them
      removed. */
  function RegisterPatient(typedName: string, age: int, typedDisease: string): (r: Option<Patient>)
    ensures r.Some? <==> age > 0
    ensures r.Some? ==> r.value.age == age
    ensures r.Some? ==> r.value.name == Text.Strip(typedName) && r.value.disease == Text.Strip(typedDisease)
    ensures r.Some? ==> Text.TrimmedFrom(typedName, r.value.name) && Text.TrimmedFrom(typedDisease, r.value.disease)
  {
    Text.StripSlice(typedName);
    Text.StripSlice(typedDisease);
    if age > 0 then Some(Patient(Text.Strip(typedName), age, Text.Strip(typedDisease))) else None
  }

  // ---------------------------------------------------------------------
  // The invariant

  function DoctorIds(ds: seq<Doctor>): seq<int>
  {
    MapSeq(ds, (doc: Doctor) => doc.id)
  }

  function AppointmentIds(aps: seq<Appointment>): seq<int>
  {
    MapSeq(aps, (a: Appointment) => a.id)
  }

  /** Doctor ids and appointment ids are each unique and below their
      counters, and every appointment names a registered doctor. */
  ghost predicate ValidData(d: HospitalData)
  {
    && UniqueBelow(DoctorIds(d.doctors), d.nextDoctorId)
    && UniqueBelow(AppointmentIds(d.appointments), d.nextAppointmentId)
    && forall a :: a in d.appointments ==> a.doctorId in DoctorIds(d.doctors)
  }

  // ---------------------------------------------------------------------
  // Adding a doctor

  /** What `add_doctor` makes of the document. */
  function AddDoctorTo(d: HospitalData, name: string, specialization: string, timings: string): (r: HospitalData)
    ensures |r.doctors| == |d.doctors| + 1 && r.doctors[..|d.doctors|] == d.doctors
    ensures r.doctors[|d.doctors|] == Doctor(d.nextDoctorId, name, specialization, timings)
    ensures r.nextDoctorId == d.nextDoctorId + 1
    ensures r.appointments == d.appointments && r.nextAppointmentId == d.nextAppointmentId
  {
    d.(doctors := d.doctors + [Doctor(d.nextDoctorId, name, specialization, timings)],
       nextDoctorId := d.nextDoctorId + 1)
  }

  lemma AddDoctorKeepsValid(d: HospitalData, name: string, specialization: string, timings: string)
    requires ValidData(d)
    ensures ValidData(AddDoctorTo(d, name, specialization, timings))
  {
    var r := AddDoctorTo(d, name, specialization, timings);
    assert DoctorIds(r.doctors) == DoctorIds(d.doctors) + [d.nextDoctorId];
    FreshIdKeepsUnique(DoctorIds(d.doctors), d.nextDoctorId);
  }

  // ---------------------------------------------------------------------
  // Booking

  /** The position of the first doctor with the entered id, as
      `book_appointment` searches for it. */
  function DoctorIndex(ds: seq<Doctor>, id: int): (r: Option<nat>)
    ensures r.Some? ==> (r.value < |ds| && ds[r.value].id == id
      && forall j :: 0 <= j < r.value ==> ds[j].id != id)
    ensures r.None? ==> forall j :: 0 <= j < |ds| ==> ds[j].id != id
  {
    if ds == [] then None
    else if ds[0].id == id then Some(0)
    else match DoctorIndex(ds[1..], id)
      case Some(k) => assert ds[k + 1] == ds[1..][k]; Some(k + 1)
      case None => None
  }

  datatype BookingOutcome = NoDoctors | UnknownDoctor | Booked(appointmentId: int)

  /** What `book_appointment` decides for an entered doctor id and a
      registered patient, and the document afterwards. */
  function Book(d: HospitalData, doctorId: int, patient: Patient, time: string): (r: (BookingOutcome, HospitalData))
    ensures r.0 == NoDoctors <==> d.doctors == []
    ensures r.0.Booked? <==> exists i :: 0 <= i < |d.doctors| && d.doctors[i].id == doctorId
    ensures !r.0.Booked? ==> r.1 == d
    ensures r.0.Booked? ==>
      && DoctorIndex(d.doctors, doctorId).Some?
      && var doc := d.doctors[DoctorIndex(d.doctors, doctorId).value];
      && r.0.appointmentId == d.nextAppointmentId
      && r.1.doctors == d.doctors && r.1.nextDoctorId == d.nextDoctorId
      && r.1.appointments == d.appointments +
           [Appointment(d.nextAppointmentId, doctorId, doc.name, PatientString(patient), time, "Scheduled")]
      && r.1.nextAppointmentId == d.nextAppointmentId + 1
  {
    if d.doctors == [] then (NoDoctors, d)
    else match DoctorIndex(d.doctors, doctorId)
      case None => (UnknownDoctor, d)
      case Some(i) =>
        var a := Appointment(d.nextAppointmentId, doctorId, d.doctors[i].name,
                             PatientString(patient), time, Scheduled);
        (Booked(d.nextAppointmentId),
         d.(appointments := d.appointments + [a], nextAppointmentId := d.nextAppointmentId + 1))
  }

  lemma BookKeepsValid(d: HospitalData, doctorId: int, patient: Patient, time: string)
    requires ValidData(d)
    ensures ValidData(Book(d, doctorId, patient, time).1)
  {
    var r := Book(d, doctorId, patient, time);
    if r.0.Booked? {
      var i := DoctorIndex(d.doctors, doctorId).value;
      var a := r.1.appointments[|d.appointments|];
      assert r.1.appointments == d.appointments + [a];
      assert AppointmentIds(r.1.appointments) == AppointmentIds(d.appointments) + [d.nextAppointmentId];
      FreshIdKeepsUnique(AppointmentIds(d.appointments), d.nextAppointmentId);
      assert DoctorIds(d.doctors)[i] == doctorId;
    }
  }

  // ---------------------------------------------------------------------
  // The system

  class HospitalSystem {
    var doctors: seq<Doctor>
    var appointments: seq<Appointment>
    var nextDoctorId: int
    var nextAppointmentId: int

    /** The state this system works on; `Save(State())` is what it writes. */
    function State(): HospitalData
      reads this
    {
      HospitalData(doctors, appointments, nextDoctorId, nextAppointmentId)
    }

    ghost predicate Valid()
      reads this
    {
      ValidData(State())
    }

    /** A system holding a rebuilt document. */
    constructor (d: HospitalData)
      ensures State() == d
    {
      doctors := d.doctors;
      appointments := d.appointments;
      nextDoctorId := d.nextDoctorId;
      nextAppointmentId := d.nextAppointmentId;
    }

    /** `HospitalSystem()` as written: load the file and rebuild every saved
        doctor through the constructor; `null` stands for the TypeError that
        ends the program when a dictionary does not fit. */
    static method Start(f: StoredFile<HospitalDoc>) returns (system: HospitalSystem?)
      ensures system == null <==> RebuildAsWritten(LoadDocument(f)).None?
      ensures system != null ==> fresh(system) && system.State() == RebuildAsWritten(LoadDocument(f)).value
      ensures !f.Parsed? ==> system != null && system.Valid()
    {
      var rebuilt := RebuildAsWritten(LoadDocument(f));
      if rebuilt.None? {
        return null;
      }
      system := new HospitalSystem(rebuilt.value);
    }

    /** The start the saved format calls for: every saved doctor rebuilt
        from the keys `to_dict` writes, so a saved system starts again as it
        was saved. */
    static method StartFromSaved(f: StoredFile<HospitalDoc>) returns (system: HospitalSystem?)
      ensures system == null <==> Rebuild(LoadDocument(f)).None?
      ensures system != null ==> fresh(system) && system.State() == Rebuild(LoadDocument(f)).value
      ensures !f.Parsed? ==> system != null && system.Valid()
    {
      var rebuilt := Rebuild(LoadDocument(f));
      if rebuilt.None? {
        return null;
      }
      system := new HospitalSystem(rebuilt.value);
    }

    /** `add_doctor`: append a doctor carrying the counter's value as its id. */
    method AddDoctor(name: string, specialization: string, timings: string) returns (doctorId: int)
      modifies this
      ensures doctorId == old(nextDoctorId)
      ensures old(Valid()) ==> doctorId !in old(DoctorIds(doctors))
      ensures State() == AddDoctorTo(old(State()), name, specialization, timings)
      ensures old(Valid()) ==> Valid()
    {
      ghost var d := State();
      doctorId := nextDoctorId;
      doctors := doctors + [Doctor(doctorId, name, specialization, timings)];
      nextDoctorId := nextDoctorId + 1;
      if ValidData(d) {
        AddDoctorKeepsValid(d, name, specialization, timings);
      }
    }

    /** `book_appointment` with the entered doctor id, the registered patient
        and the booking time as parameters. */
    method BookAppointment(doctorId: int, patient: Patient, time: string) returns (outcome: BookingOutcome)
      modifies this
      ensures (outcome, State()) == Book(old(State()), doctorId, patient, time)
      ensures old(Valid()) ==> Valid()
    {
      ghost var d := State();
      if doctors == [] {
        return NoDoctors;
      }
      match DoctorIndex(doctors, doctorId)
      case None =>
        return UnknownDoctor;
      case Some(i) =>
        var appointmentId := nextAppointmentId;
        var a := Appointment(appointmentId, doctorId, doctors[i].name,
                             PatientString(patient), time, Scheduled);
        appointments := appointments + [a];
        nextAppointmentId := nextAppointmentId + 1;
        outcome := Booked(appointmentId);
        if ValidData(d) {
          BookKeepsValid(d, doctorId, patient, time);
        }
    }
  }

  /** A new system seeded with the two default doctors, one booking accepted
      and one refused. */
  method DefaultDoctorsScenario(time: string)
  {
    var hospital := HospitalSystem.Start(Corrupted);
    var smith := hospital.AddDoctor("Smith", "Cardiology", "Mon, Wed, Fri 10AM-2PM");
    var jones := hospital.AddDoctor("Jones", "Pediatrics", "Tue, Thu 9AM-5PM");
    assert smith == 101 && jones == 102 && hospital.nextDoctorId == 103;

    var patient := Patient("Ann", 40, "Flu");
    var booked := hospital.BookAppointment(102, patient, time);
    assert hospital.doctors[1].id == 102;
    assert booked == Booked(1);
    assert hospital.appointments[0].doctorName == "Jones";

    var refused := hospital.BookAppointment(7, patient, time);
    assert refused == UnknownDoctor && |hospital.appointments| == 1;
  }

  /** A system holding one doctor is saved; as written it does not start
      again, while the rebuild from the saved keys restores it. */
  method RestartScenario()
  {
    var hospital := HospitalSystem.Start(Missing);
    var smith := hospital.AddDoctor("Smith", "Cardiology", "Mon, Wed, Fri 10AM-2PM");
    assert smith == 101 && |hospital.doctors| == 1;

    var saved := Save(hospital.State());
    SavedDoctorsNeverRestart(hospital.State());
    var second := HospitalSystem.Start(Parsed(saved));
    assert second == null;

    SaveRebuildRoundTrip(hospital.State(), saved);
    var restored := HospitalSystem.StartFromSaved(Parsed(saved));
    assert restored != null && restored.State() == hospital.State();
  }

  /** A name typed with spaces around it is registered without them. */
  method RegisterScenario()
  {
    var typed := " Ann ";
    assert Text.StripStart(typed) == typed[1..];
    assert Text.StripEnd(typed[1..]) == "Ann";
    var registered := RegisterPatient(typed, 40, "Flu");
    assert registered.value.name == "Ann";
    var refused := RegisterPatient("Ann", 0, "Flu");
    assert refused == None;
  }
}
