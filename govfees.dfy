/** The government service fee schedule: agencies, passport fees by
    category, speed and office, the piecewise vehicle registration fee,
    single-key fee tables, the flat list of every fee and its full-text
    search. */
module GovFees {
  import opened Wrappers
  import opened Strings
  import opened Lookups

  // ---------------------------------------------------------------------
  // Agencies
  // ---------------------------------------------------------------------

  /** The `AgencyId` literal type: the keys of `_AGENCIES`. */
  datatype AgencyId = Pica | Nira | Taj | Ita | Coj | Nla | Nepa | Police | TradeBoard | Labour

  datatype Agency = Agency(id: string, name: string, acronym: Option<string>)

  /** The agency's key in `_AGENCIES`. */
  function IdText(a: AgencyId): string
  {
    match a
    case Pica => "pica"
    case Nira => "nira"
    case Taj => "taj"
    case Ita => "ita"
    case Coj => "coj"
    case Nla => "nla"
    case Nepa => "nepa"
    case Police => "police"
    case TradeBoard => "trade_board"
    case Labour => "labour"
  }

  /** `_AGENCIES.get(id)` reduced to its key: the agency an id names. */
  function ParseAgencyId(id: string): (r: Option<AgencyId>)
  {
    match id
    case "pica" => Some(Pica)
    case "nira" => Some(Nira)
    case "taj" => Some(Taj)
    case "ita" => Some(Ita)
    case "coj" => Some(Coj)
    case "nla" => Some(Nla)
    case "nepa" => Some(Nepa)
    case "police" => Some(Police)
    case "trade_board" => Some(TradeBoard)
    case "labour" => Some(Labour)
    case _ => None
  }

  /** Ids and agencies correspond one to one. */
  lemma AgencyIdRoundTrip(a: AgencyId, id: string)
    ensures ParseAgencyId(IdText(a)) == Some(a)
    ensures ParseAgencyId(id).Some? ==> IdText(ParseAgencyId(id).value) == id
  {
  }

  /** `_AGENCIES[id]["name"]`. */
  function AgencyName(a: AgencyId): string
  {
    match a
    case Pica => "Passport, Immigration and Citizenship Agency"
    case Nira => "National Identification and Registration Authority"
    case Taj => "Tax Administration Jamaica"
    case Ita => "Island Traffic Authority"
    case Coj => "Companies Office of Jamaica"
    case Nla => "National Land Agency"
    case Nepa => "National Environment and Planning Agency"
    case Police => "Jamaica Constabulary Force"
    case TradeBoard => "Trade Board Limited"
    case Labour => "Ministry of Labour and Social Security"
  }

  /** `_AGENCIES[id].get("acronym")`: Trade Board and Labour have none. */
  function AgencyAcronym(a: AgencyId): Option<string>
  {
    match a
    case Pica => Some("PICA")
    case Nira => Some("NIRA")
    case Taj => Some("TAJ")
    case Ita => Some("ITA")
    case Coj => Some("COJ")
    case Nla => Some("NLA")
    case Nepa => Some("NEPA")
    case Police => Some("JCF")
    case TradeBoard => None
    case Labour => None
  }

  /** The agencies in `_AGENCIES` order. */
  const AgencyOrder: seq<AgencyId> := [Pica, Nira, Taj, Ita, Coj, Nla, Nepa, Police, TradeBoard, Labour]

  /** `get_agency`: `None` for an unknown id; otherwise the agency with the
      table's name, and with no acronym exactly for Trade Board and
      Labour. */
  function GetAgency(id: string): (r: Option<Agency>)
    ensures r.Some? <==> ParseAgencyId(id).Some?
    ensures r.Some? ==> r.value.id == id && r.value.name == AgencyName(ParseAgencyId(id).value)
    ensures r.Some? ==> (r.value.acronym.None? <==> ParseAgencyId(id).value in {TradeBoard, Labour})
  {
    match ParseAgencyId(id)
    case None => None
    case Some(a) => Some(Agency(id, AgencyName(a), AgencyAcronym(a)))
  }

  /** `get_agencies`: one agency per table entry, in table order, each as
      `get_agency` returns it. */
  function GetAgencies(): (r: seq<Agency>)
    ensures |r| == |AgencyOrder|
  {
    seq(|AgencyOrder|, i requires 0 <= i < |AgencyOrder| =>
      var a := AgencyOrder[i];
      Agency(IdText(a), AgencyName(a), AgencyAcronym(a)))
  }

  /** Every listed agency is what `get_agency` returns for its id. */
  lemma AgenciesAsLookedUp(i: nat)
    requires i < |AgencyOrder|
    ensures Some(GetAgencies()[i]) == GetAgency(GetAgencies()[i].id)
  {
    AgencyIdRoundTrip(AgencyOrder[i], []);
  }

  // ---------------------------------------------------------------------
  // Passports
  // ---------------------------------------------------------------------

  datatype PassportFee = PassportFee(kind: string, days: nat, jmd: int, office: string)

  /** The keys of `_PASSPORT_FEES`, in table order. */
  const PassportCategories: seq<string> :=
    ["adult_new", "adult_replacement", "minor_new", "minor_replacement"]

  /** `_PASSPORT_FEES.get(key)`. Replacements have Kingston rows only. */
  function PassportTable(key: string): Option<seq<PassportFee>>
  {
    match key
    case "adult_new" => Some([
      PassportFee("standard", 7, 6500, "kingston"), PassportFee("rush", 3, 9500, "kingston"),
      PassportFee("rush", 1, 11500, "kingston"), PassportFee("rush", 0, 16500, "kingston"),
      PassportFee("standard", 7, 9500, "regional"), PassportFee("standard", 5, 11500, "regional")])
    case "adult_replacement" => Some([
      PassportFee("standard", 7, 11500, "kingston"), PassportFee("rush", 3, 14500, "kingston"),
      PassportFee("rush", 1, 16500, "kingston"), PassportFee("rush", 0, 21500, "kingston")])
    case "minor_new" => Some([
      PassportFee("standard", 7, 4000, "kingston"), PassportFee("rush", 3, 6000, "kingston"),
      PassportFee("rush", 1, 7000, "kingston"), PassportFee("rush", 0, 9000, "kingston"),
      PassportFee("standard", 7, 6000, "regional"), PassportFee("standard", 5, 7000, "regional")])
    case "minor_replacement" => Some([
      PassportFee("standard", 7, 7000, "kingston"), PassportFee("rush", 3, 9000, "kingston"),
      PassportFee("rush", 1, 10000, "kingston"), PassportFee("rush", 0, 12000, "kingston")])
    case _ => None
  }

  /** `_SPEED_TO_DAYS.get(speed)`. */
  function SpeedToDays(speed: string): Option<nat>
  {
    match speed
    case "standard" => Some(7)
    case "rush_3day" => Some(3)
    case "rush_1day" => Some(1)
    case "same_day" => Some(0)
    case _ => None
  }

  /** The office whose rows are searched: Kingston for every replacement. */
  function EffectiveOffice(kind: string, office: string): string
  {
    if kind == "replacement" then "kingston" else office
  }

  /** The passport table's key for an age group and a passport type. */
  function CategoryKey(age: string, kind: string): string
  {
    age + "_" + kind
  }

  predicate RowMatches(f: PassportFee, days: nat, office: string)
  {
    f.days == days && f.office == office
  }

  /** The fee of the first row with the given days and office, a
      ValueError when there is none. */
  function RowFee(rows: seq<PassportFee>, days: nat, office: string): (r: Result<int>)
    ensures r.Err? ==> r.error == ValueError
    ensures r.Err? <==> forall i :: 0 <= i < |rows| ==> !RowMatches(rows[i], days, office)
    ensures r.Ok? ==> exists i :: 0 <= i < |rows| && RowMatches(rows[i], days, office) && rows[i].jmd == r.value
  {
    match FirstIndex(rows, f => RowMatches(f, days, office))
    case Some(i) => Ok(rows[i].jmd)
    case None => Err(ValueError)
  }

  /** The early-return search loop over a category's rows. */
  method FindRowFee(rows: seq<PassportFee>, days: nat, office: string) returns (r: Result<int>)
    ensures r == RowFee(rows, days, office)
  {
    var i := 0;
    while i < |rows|
      invariant i <= |rows|
      invariant forall j :: 0 <= j < i ==> !RowMatches(rows[j], days, office)
    {
      if rows[i].days == days && rows[i].office == office {
        assert FirstIndex(rows, f => RowMatches(f, days, office)) == Some(i);
        return Ok(rows[i].jmd);
      }
      i := i + 1;
    }
    assert FirstIndex(rows, f => RowMatches(f, days, office)) == None;
    r := Err(ValueError);
  }

  /** The fee `get_passport_fee` returns: a ValueError for an unknown
      category or an unknown speed, then the first row of the category
      with the speed's days at the effective office. */
  function PassportFeeOf(kind: string, age: string, speed: string, office: string): (r: Result<int>)
    ensures PassportTable(CategoryKey(age, kind)).None? || SpeedToDays(speed).None? ==> r == Err(ValueError)
    ensures PassportTable(CategoryKey(age, kind)).Some? && SpeedToDays(speed).Some? ==>
              r == RowFee(PassportTable(CategoryKey(age, kind)).value, SpeedToDays(speed).value,
                          EffectiveOffice(kind, office))
  {
    match (PassportTable(CategoryKey(age, kind)), SpeedToDays(speed))
    case (Some(rows), Some(days)) => RowFee(rows, days, EffectiveOffice(kind, office))
    case _ => Err(ValueError)
  }

  /** `get_passport_fee`. */
  method GetPassportFee(kind: string, age: string, speed: string, office: string) returns (r: Result<int>)
    ensures r == PassportFeeOf(kind, age, speed, office)
  {
    var rows := PassportTable(CategoryKey(age, kind));
    if rows.None? {
      return Err(ValueError);
    }
    var days := SpeedToDays(speed);
    if days.None? {
      return Err(ValueError);
    }
    r := FindRowFee(rows.value, days.value, EffectiveOffice(kind, office));
  }

  /** A replacement is priced at the Kingston office whatever office is
      asked for. */
  lemma ReplacementUsesKingston(age: string, speed: string, office: string)
    ensures PassportFeeOf("replacement", age, speed, office)
         == PassportFeeOf("replacement", age, speed, "kingston")
  {
  }

  /** Regional offices do no same-day processing, so a regional same-day
      new adult passport raises. */
  lemma RegionalSameDayRaises()
    ensures PassportFeeOf("new", "adult", "same_day", "regional") == Err(ValueError)
  {
    assert CategoryKey("adult", "new") == "adult_new";
    assert "same_day" != "standard" by { assert "same_day"[1] != "standard"[1]; }
    assert SpeedToDays("same_day") == Some(0);
    NoRegionalSameDayRow(PassportTable("adult_new").value);
  }

  lemma NoRegionalSameDayRow(rows: seq<PassportFee>)
    requires rows == PassportTable("adult_new").value
    ensures RowFee(rows, 0, "regional") == Err(ValueError)
  {
    forall i | 0 <= i < |rows| ensures !RowMatches(rows[i], 0, "regional")
    {
      assert i < 4 ==> rows[i].days != 0 || rows[i].office != "regional";
      assert 4 <= i ==> rows[i].days != 0;
    }
  }

  /** Rows listed earlier win: a standard new adult passport at Kingston
      is the first row of its category. */
  lemma StandardAdultNewAtKingston()
    ensures PassportFeeOf("new", "adult", "standard", "kingston") == Ok(6500)
  {
    assert CategoryKey("adult", "new") == "adult_new";
    var rows := PassportTable("adult_new").value;
    assert FirstIndex(rows, f => RowMatches(f, 7, "kingston")) == Some(0);
  }

  // ---------------------------------------------------------------------
  // Vehicles
  // ---------------------------------------------------------------------

  datatype VehicleFee = VehicleFee(kind: string, jmd: int)

  /** `_VEHICLE_REGISTRATION_FEES`, in table order. */
  const VehicleRegistrationFees: seq<VehicleFee> := [
    VehicleFee("motor_car_up_to_1199cc", 18480), VehicleFee("motor_car_1200_2999cc", 25200),
    VehicleFee("motor_car_3000_3999cc", 57600), VehicleFee("motor_car_4000cc_plus", 87650),
    VehicleFee("electric_motor_car", 9240), VehicleFee("motorcycle_up_to_125cc", 3690),
    VehicleFee("motorcycle_126_500cc", 5580), VehicleFee("motorcycle_500cc_plus", 8550)]

  /** `get_vehicle_registration_fee`: a ValueError for a negative
      displacement, otherwise the band's 24-month fee. */
  function VehicleRegistrationFee(engineCc: int): (r: Result<int>)
    ensures r.Err? <==> engineCc < 0
    ensures r.Err? ==> r.error == ValueError
  {
    if engineCc < 0 then Err(ValueError)
    else if engineCc <= 1199 then Ok(18480)
    else if engineCc <= 2999 then Ok(25200)
    else if engineCc <= 3999 then Ok(57600)
    else Ok(87650)
  }

  /** The fee is the table's motor-car row for the displacement's band. */
  lemma VehicleFeeIsMotorCarRow(engineCc: int)
    requires engineCc >= 0
    ensures var row := if engineCc <= 1199 then 0 else if engineCc <= 2999 then 1
                       else if engineCc <= 3999 then 2 else 3;
            VehicleRegistrationFee(engineCc) == Ok(VehicleRegistrationFees[row].jmd)
  {
  }

  /** A larger engine never pays less. */
  lemma VehicleFeeMonotone(a: int, b: int)
    requires 0 <= a <= b
    ensures VehicleRegistrationFee(a).value <= VehicleRegistrationFee(b).value
  {
  }

  // ---------------------------------------------------------------------
  // Single-key tables
  // ---------------------------------------------------------------------

  /** `table.get(key)`, raising ValueError when the key is absent. */
  function Lookup(table: seq<(string, int)>, key: string): (r: Result<int>)
    ensures r.Ok? <==> key in Keys(table)
    ensures r.Err? ==> r.error == ValueError
    ensures r.Ok? ==> (key, r.value) in table
  {
    match First(table, (e: (string, int)) => e.0 == key)
    case Some(e) => Ok(e.1)
    case None =>
      assert forall i :: 0 <= i < |table| ==> Keys(table)[i] != key;
      Err(ValueError)
  }

  const FitnessFees: seq<(string, int)> := [
    ("private_motor_vehicle", 4500), ("motorcycle", 4500), ("trailer_tractor", 5400),
    ("ppv_l_form", 3240), ("public_commercial", 5400)]

  const DriversLicenceFees: seq<(string, int)> := [
    ("private", 5400), ("general", 7200), ("motorcycle", 4140)]

  const BusinessRegistrationFees: seq<(string, int)> := [
    ("sole_trader", 2500), ("partnership_small", 2500), ("partnership_large", 5000), ("company", 27000)]

  const PoliceRecordFees: seq<(string, int)> := [("regular", 3000), ("express", 6000)]

  /** The keys of `_VITAL_RECORD_FEES`; every record type has the same two
      speeds. */
  const VitalRecordTypes: seq<string> := ["birth", "death", "marriage"]
  const VitalRecordSpeeds: seq<(string, int)> := [("same_day", 7500), ("next_day", 6000)]

  function VitalRecordTable(kind: string): Option<seq<(string, int)>>
  {
    if kind in VitalRecordTypes then Some(VitalRecordSpeeds) else None
  }

  /** `get_certificate_of_fitness_fee`. */
  function CertificateOfFitnessFee(vehicleType: string): Result<int>
  {
    Lookup(FitnessFees, vehicleType)
  }

  /** `get_drivers_licence_fee`. */
  function DriversLicenceFee(kind: string): Result<int>
  {
    Lookup(DriversLicenceFees, kind)
  }

  /** `get_business_registration_fee`. */
  function BusinessRegistrationFee(kind: string): Result<int>
  {
    Lookup(BusinessRegistrationFees, kind)
  }

  /** `get_police_record_fee`. */
  function PoliceRecordFee(speed: string): Result<int>
  {
    Lookup(PoliceRecordFees, speed)
  }

  /** `get_vital_record_fee`: the record type is looked up first, then the
      speed; either one missing is a ValueError. */
  function VitalRecordFee(kind: string, speed: string): (r: Result<int>)
    ensures r.Err? ==> r.error == ValueError
    ensures r.Ok? <==> kind in VitalRecordTypes && speed in Keys(VitalRecordSpeeds)
  {
    match VitalRecordTable(kind)
    case None => Err(ValueError)
    case Some(speeds) => Lookup(speeds, speed)
  }

  /** Each single-key lookup returns its table's value for a listed key and
      raises ValueError for any other key. */
  lemma SingleKeyLookups(key: string)
    ensures CertificateOfFitnessFee(key).Ok? <==> key in Keys(FitnessFees)
    ensures DriversLicenceFee(key).Ok? <==> key in Keys(DriversLicenceFees)
    ensures BusinessRegistrationFee(key).Ok? <==> key in Keys(BusinessRegistrationFees)
    ensures PoliceRecordFee(key).Ok? <==> key in Keys(PoliceRecordFees)
    ensures CertificateOfFitnessFee(key).Err? ==> CertificateOfFitnessFee(key).error == ValueError
    ensures PoliceRecordFee(key).Ok? ==> (key, PoliceRecordFee(key).value) in PoliceRecordFees
  {
  }

  /** The keys of a table are unique, so a listed key's value is its row's. */
  lemma LookupListedKey(table: seq<(string, int)>, i: nat)
    requires i < |table|
    requires forall j, k :: 0 <= j < k < |table| ==> table[j].0 != table[k].0
    ensures Lookup(table, table[i].0) == Ok(table[i].1)
  {
    var key := table[i].0;
    var j := FirstIndex(table, (e: (string, int)) => e.0 == key).value;
    assert !(j < i) && !(i < j);
  }

  // ---------------------------------------------------------------------
  // The flat fee list and its search
  // ---------------------------------------------------------------------

  datatype ServiceFee = ServiceFee(agency: AgencyId, agencyName: string, service: string,
                                   description: string, jmd: real, note: Option<string>)

  /** An entry names a key of the agency table and carries that agency's
      name. */
  predicate Attributed(f: ServiceFee)
  {
    f.agencyName == AgencyName(f.agency)
  }

  predicate AllAttributed(fees: seq<ServiceFee>)
  {
    forall i :: 0 <= i < |fees| ==> Attributed(fees[i]) && fees[i].jmd >= 0.0
  }

  /** A `ServiceFee` built as the source builds them, with the name read
      from `_AGENCIES[agency]["name"]`. */
  function Fee(agency: AgencyId, service: string, description: string, jmd: real, note: Option<string>): (f: ServiceFee)
    ensures Attributed(f) && f.agency == agency && f.jmd == jmd
  {
    ServiceFee(agency, AgencyName(agency), service, description, jmd, note)
  }

  /** `s.replace('_', ' ')`. */
  function Spaced(s: string): (r: string)
    ensures |r| == |s| && '_' !in r
  {
    seq(|s|, i requires 0 <= i < |s| => if s[i] == '_' then ' ' else s[i])
  }

  /** `s.capitalize()` on ASCII: the first letter upper case, the rest
      lower case. */
  function Capitalized(s: string): (r: string)
    ensures |r| == |s|
  {
    if s == [] then [] else [UpperChar(s[0])] + Lower(s[1..])
  }

  function PassportDescription(category: string, item: PassportFee): string
  {
    "Passport (" + Spaced(category) + ") - " + item.kind + " " + NatToString(item.days) + "d - " + item.office
  }

  /** How a table section builds a service name or a description from a
      row's key: a fixed text, the key after a prefix, the key before a
      suffix, or the key with underscores spaced after a prefix. */
  datatype Naming = Fixed(text: string) | Prefixed(prefix: string) | Suffixed(suffix: string)
                  | PrefixedSpaced(spacedPrefix: string)

  function Name(naming: Naming, key: string): string
  {
    match naming
    case Fixed(text) => text
    case Prefixed(prefix) => prefix + key
    case Suffixed(suffix) => key + suffix
    case PrefixedSpaced(prefix) => prefix + Spaced(key)
  }

  // ---------------------------------------------------------------------
  // The fee list as a value, section by section
  // ---------------------------------------------------------------------

  function PassportEntry(category: string, item: PassportFee): ServiceFee
  {
    Fee(Pica, "passport_" + category, PassportDescription(category, item), item.jmd as real, None)
  }

  /** The entries of a category's rows, in row order. */
  function PassportRowFees(category: string, rows: seq<PassportFee>): seq<ServiceFee>
  {
    if rows == [] then []
    else PassportRowFees(category, rows[..|rows| - 1]) + [PassportEntry(category, rows[|rows| - 1])]
  }

  function PassportRows(category: string): seq<PassportFee>
  {
    match PassportTable(category)
    case Some(rows) => rows
    case None => []
  }

  /** The entries of the categories, category by category. */
  function PassportSections(categories: seq<string>): seq<ServiceFee>
  {
    if categories == [] then []
    else
      var category := categories[|categories| - 1];
      PassportSections(categories[..|categories| - 1]) + PassportRowFees(category, PassportRows(category))
  }

  /** The entry of one `(key, amount)` row. */
  function TableEntry(agency: AgencyId, row: (string, int), service: Naming, description: Naming): ServiceFee
  {
    Fee(agency, Name(service, row.0), Name(description, row.0), row.1 as real, None)
  }

  /** The entries of a `(key, amount)` table, in table order. */
  function TableFees(agency: AgencyId, table: seq<(string, int)>, service: Naming, description: Naming): seq<ServiceFee>
  {
    if table == [] then []
    else
      TableFees(agency, table[..|table| - 1], service, description)
        + [TableEntry(agency, table[|table| - 1], service, description)]
  }

  /** The certificate entries of the record types, type by type. */
  function NiraSections(recordTypes: seq<string>): seq<ServiceFee>
  {
    if recordTypes == [] then []
    else
      var recordType := recordTypes[|recordTypes| - 1];
      NiraSections(recordTypes[..|recordTypes| - 1])
        + TableFees(Nira, VitalRecordSpeeds, Fixed(recordType + "_certificate"),
                    PrefixedSpaced(Capitalized(recordType) + " certificate - "))
  }

  function NiraFees(): seq<ServiceFee>
  {
    NiraSections(VitalRecordTypes)
      + [Fee(Nira, "additional_copy", "Additional copy at time of application", 500.0, Some("at time of application"))]
  }

  function VehicleRows(): seq<(string, int)>
  {
    Map(VehicleRegistrationFees, (v: VehicleFee) => (v.kind, v.jmd))
  }

  function TajFees(): seq<ServiceFee>
  {
    [Fee(Taj, "trn_application", "TRN application", 0.0, Some("Free - online or in person"))]
      + [Fee(Taj, "tcc", "Tax Compliance Certificate", 0.0, Some("Free - available online via eServices"))]
      + TableFees(Taj, VehicleRows(), Fixed("vehicle_registration_24mo"),
                  PrefixedSpaced("Vehicle registration 24 months - "))
      + TableFees(Taj, FitnessFees, Fixed("certificate_of_fitness"), PrefixedSpaced("Certificate of fitness - "))
      + [Fee(Taj, "property_transfer_stamp_duty", "Property transfer stamp duty", 5000.0, None)]
  }

  function ItaFees(): seq<ServiceFee>
  {
    [Fee(Ita, "learners_permit_1yr", "Learner's permit (1 year)", 1800.0, None)]
      + [Fee(Ita, "drivers_licence_exam", "Driver's licence examination", 3240.0, None)]
      + TableFees(Ita, DriversLicenceFees, Suffixed("_drivers_licence"), Prefixed("Driver's licence - "))
      + [Fee(Ita, "road_code_test", "Road code test", 0.0, Some("Free"))]
  }

  function CojFees(): seq<ServiceFee>
  {
    [Fee(Coj, "name_search", "Business name search", 500.0, None),
     Fee(Coj, "name_reservation", "Business name reservation", 3000.0, None),
     Fee(Coj, "sole_trader_registration", "Sole trader registration", 2500.0, None),
     Fee(Coj, "partnership_2_5", "Partnership registration (2-5 partners)", 2500.0, None),
     Fee(Coj, "partnership_6_20", "Partnership registration (6-20 partners)", 5000.0, None),
     Fee(Coj, "trade_name_corporation", "Trade name registration for corporation", 3000.0, None),
     Fee(Coj, "company_incorporation", "Company incorporation", 27000.0, None),
     Fee(Coj, "stamping", "Stamping fee (minimum)", 500.0, Some("minimum"))]
  }

  function NlaNepaFees(): seq<ServiceFee>
  {
    [Fee(Nla, "title_search_basic", "Basic title search", 0.0, Some("Free online")),
     Fee(Nla, "note_change_name", "Note change of name on title", 100.0, None),
     Fee(Nla, "name_amendment_on_title", "Name amendment on title (minimum)", 500.0, Some("minimum")),
     Fee(Nepa, "application_fee", "NEPA application fee", 2000.0, Some("non-refundable")),
     Fee(Nepa, "environmental_permit", "Environmental permit (typical range J$15,000-25,000)", 15000.0,
         Some("lower end of range; upper end is J$25,000")),
     Fee(Nepa, "environmental_licence", "Environmental licence", 7500.0, None)]
  }

  function PoliceTradeLabourFees(): seq<ServiceFee>
  {
    [Fee(Police, "fingerprinting_overseas", "Fingerprinting for overseas use", 1500.0, None),
     Fee(Police, "accident_report", "Accident report", 3000.0, None),
     Fee(TradeBoard, "motor_vehicle_import_permit", "Motor vehicle import permit", 6325.0, None),
     Fee(TradeBoard, "amendment_fee", "Import permit amendment fee", 2875.5, None),
     Fee(TradeBoard, "permit_printout", "Permit printout", 1150.0, None),
     Fee(Labour, "work_permit_processing", "Work permit processing fee", 17250.0, Some("non-refundable")),
     Fee(Labour, "work_permit_quarterly", "Work permit quarterly fee", 48875.0, None),
     Fee(Labour, "work_permit_annual", "Work permit annual fee", 195500.0, None)]
  }

  function OtherFees(): seq<ServiceFee>
  {
    CojFees() + NlaNepaFees()
      + TableFees(Police, PoliceRecordFees, Prefixed("police_record_"), Prefixed("Police record - "))
      + PoliceTradeLabourFees()
  }

  /** The list `get_all_fees` builds. */
  function AllFees(): seq<ServiceFee>
  {
    PassportSections(PassportCategories) + NiraFees() + TajFees() + ItaFees() + OtherFees()
  }

  /** One more row of a category adds its entry at the end. */
  lemma PassportRowFeesStep(prefix: seq<ServiceFee>, category: string, rows: seq<PassportFee>, i: nat)
    requires i < |rows|
    ensures prefix + PassportRowFees(category, rows[..i + 1])
      == prefix + PassportRowFees(category, rows[..i]) + [PassportEntry(category, rows[i])]
  {
    assert rows[..i + 1][..i] == rows[..i];
    AppendAssoc(prefix, PassportRowFees(category, rows[..i]), [PassportEntry(category, rows[i])]);
  }

  /** One more category adds its rows' entries at the end. */
  lemma PassportSectionsStep(categories: seq<string>, c: nat)
    requires c < |categories|
    ensures PassportSections(categories[..c + 1])
      == PassportSections(categories[..c]) + PassportRowFees(categories[c], PassportRows(categories[c]))
  {
    assert categories[..c + 1][..c] == categories[..c];
  }

  /** One more row of a table adds its entry at the end. */
  lemma TableFeesStep(fees: seq<ServiceFee>, agency: AgencyId, table: seq<(string, int)>, service: Naming,
                      description: Naming, i: nat)
    requires i < |table|
    ensures fees + TableFees(agency, table[..i + 1], service, description)
      == fees + TableFees(agency, table[..i], service, description) + [TableEntry(agency, table[i], service, description)]
  {
    assert table[..i + 1][..i] == table[..i];
    AppendAssoc(fees, TableFees(agency, table[..i], service, description), [TableEntry(agency, table[i], service, description)]);
  }

  /** One more record type adds its certificate entries at the end. */
  lemma NiraSectionsStep(recordTypes: seq<string>, t: nat)
    requires t < |recordTypes|
    ensures NiraSections(recordTypes[..t + 1])
      == NiraSections(recordTypes[..t])
         + TableFees(Nira, VitalRecordSpeeds, Fixed(recordTypes[t] + "_certificate"),
                     PrefixedSpaced(Capitalized(recordTypes[t]) + " certificate - "))
  {
    assert recordTypes[..t + 1][..t] == recordTypes[..t];
  }

  lemma AppendAssoc(a: seq<ServiceFee>, b: seq<ServiceFee>, c: seq<ServiceFee>)
    ensures (a + b) + c == a + (b + c)
  {
  }

  lemma LeftUnit(s: seq<ServiceFee>)
    ensures [] + s == s
  {
  }

  lemma Assoc4(s: seq<ServiceFee>, a: seq<ServiceFee>, b: seq<ServiceFee>, c: seq<ServiceFee>, d: seq<ServiceFee>)
    ensures (((s + a) + b) + c) + d == s + (((a + b) + c) + d)
  {
    AppendAssoc(s, a, b);
    AppendAssoc(s, a + b, c);
    AppendAssoc(s, (a + b) + c, d);
  }

  lemma Assoc5(s: seq<ServiceFee>, a: seq<ServiceFee>, b: seq<ServiceFee>, c: seq<ServiceFee>, d: seq<ServiceFee>,
               e: seq<ServiceFee>)
    ensures ((((s + a) + b) + c) + d) + e == s + ((((a + b) + c) + d) + e)
  {
    Assoc4(s, a, b, c, d);
    AppendAssoc(s, (((a + b) + c) + d), e);
  }

  /** The amounts of each passport category's table are not negative. */
  lemma PassportCategoryRows(c: nat)
    requires c < |PassportCategories|
    ensures forall item :: item in PassportRows(PassportCategories[c]) ==> item.jmd >= 0
  {
  }

  /** Rows with non-negative amounts give attributed passport entries. */
  lemma {:induction false} PassportRowFeesAttributed(category: string, rows: seq<PassportFee>)
    requires forall item :: item in rows ==> item.jmd >= 0
    ensures AllAttributed(PassportRowFees(category, rows))
  {
    if rows != [] {
      var n := |rows| - 1;
      assert forall item :: item in rows[..n] ==> item in rows;
      PassportRowFeesAttributed(category, rows[..n]);
      assert rows[n] in rows;
      AttributedConcat(PassportRowFees(category, rows[..n]), [PassportEntry(category, rows[n])]);
    }
  }

  /** The passport entries of the first `c` categories are attributed. */
  lemma {:induction false} PassportSectionsAttributed(c: nat)
    requires c <= |PassportCategories|
    ensures AllAttributed(PassportSections(PassportCategories[..c]))
  {
    if c > 0 {
      var category := PassportCategories[c - 1];
      PassportSectionsAttributed(c - 1);
      PassportSectionsStep(PassportCategories, c - 1);
      PassportCategoryRows(c - 1);
      PassportRowFeesAttributed(category, PassportRows(category));
      AttributedConcat(PassportSections(PassportCategories[..c - 1]), PassportRowFees(category, PassportRows(category)));
    }
  }

  predicate NonNegativeAmounts(table: seq<(string, int)>)
  {
    forall e :: e in table ==> e.1 >= 0
  }

  /** Every `(key, amount)` table the fee list is built from has
      non-negative amounts. */
  lemma FeeTablesNonNegative()
    ensures NonNegativeAmounts(VitalRecordSpeeds) && NonNegativeAmounts(VehicleRows())
    ensures NonNegativeAmounts(FitnessFees) && NonNegativeAmounts(DriversLicenceFees)
    ensures NonNegativeAmounts(PoliceRecordFees)
  {
  }

  /** A table with non-negative amounts gives attributed entries. */
  lemma {:induction false} TableFeesAttributed(agency: AgencyId, table: seq<(string, int)>, service: Naming,
                                               description: Naming)
    requires NonNegativeAmounts(table)
    ensures AllAttributed(TableFees(agency, table, service, description))
  {
    if table != [] {
      var n := |table| - 1;
      assert forall e :: e in table[..n] ==> e in table;
      TableFeesAttributed(agency, table[..n], service, description);
      assert table[n] in table;
      AttributedConcat(TableFees(agency, table[..n], service, description),
                       [TableEntry(agency, table[n], service, description)]);
    }
  }

  // ---------------------------------------------------------------------
  // The fee list as the source builds it
  // ---------------------------------------------------------------------

  /** The PICA loop: one fee per passport row, category by category. */
  method AddPassportFees(fees: seq<ServiceFee>) returns (r: seq<ServiceFee>)
    requires AllAttributed(fees)
    ensures r == fees + PassportSections(PassportCategories)
    ensures AllAttributed(r)
  {
    r := fees;
    var c := 0;
    while c < |PassportCategories|
      invariant c <= |PassportCategories|
      invariant r == fees + PassportSections(PassportCategories[..c])
    {
      var category := PassportCategories[c];
      var rows := PassportRows(category);
      var i := 0;
      while i < |rows|
        invariant i <= |rows|
        invariant r == fees + PassportSections(PassportCategories[..c]) + PassportRowFees(category, rows[..i])
      {
        PassportRowFeesStep(fees + PassportSections(PassportCategories[..c]), category, rows, i);
        r := r + [PassportEntry(category, rows[i])];
        i := i + 1;
      }
      assert rows[..i] == rows;
      PassportSectionsStep(PassportCategories, c);
      AppendAssoc(fees, PassportSections(PassportCategories[..c]), PassportRowFees(category, rows));
      c := c + 1;
    }
    assert PassportCategories[..c] == PassportCategories;
    PassportSectionsAttributed(c);
    AttributedConcat(fees, PassportSections(PassportCategories));
  }

  /** Appends one fee per `(key, amount)` row of a table. */
  method AddTableFees(fees: seq<ServiceFee>, agency: AgencyId, table: seq<(string, int)>,
                      service: Naming, description: Naming)
    returns (r: seq<ServiceFee>)
    requires NonNegativeAmounts(table)
    requires AllAttributed(fees)
    ensures r == fees + TableFees(agency, table, service, description)
    ensures AllAttributed(r)
  {
    r := fees;
    var i := 0;
    while i < |table|
      invariant i <= |table|
      invariant r == fees + TableFees(agency, table[..i], service, description)
    {
      TableFeesStep(fees, agency, table, service, description, i);
      r := r + [TableEntry(agency, table[i], service, description)];
      i := i + 1;
    }
    assert table[..i] == table;
    TableFeesAttributed(agency, table, service, description);
    AttributedConcat(fees, TableFees(agency, table, service, description));
  }

  /** Two lists of attributed fees joined are attributed. */
  lemma AttributedConcat(fees: seq<ServiceFee>, more: seq<ServiceFee>)
    requires AllAttributed(fees) && AllAttributed(more)
    ensures AllAttributed(fees + more)
  {
    forall i | 0 <= i < |fees + more|
      ensures Attributed((fees + more)[i]) && (fees + more)[i].jmd >= 0.0
    {
      if i >= |fees| {
        assert (fees + more)[i] == more[i - |fees|];
      }
    }
  }

  /** `get_all_fees`: the passport rows, the vital records, and every other
      agency's fees, in the source's order. Every entry names an agency of
      the table with that agency's name. */
  method GetAllFees() returns (fees: seq<ServiceFee>)
    ensures fees == AllFees()
    ensures AllAttributed(fees)
  {
    fees := AddPassportFees([]);
    fees := AddNiraFees(fees);
    fees := AddTajFees(fees);
    fees := AddItaFees(fees);
    fees := AddOtherAgencies(fees);
    var empty: seq<ServiceFee> := [];
    Assoc5(empty, PassportSections(PassportCategories), NiraFees(), TajFees(), ItaFees(), OtherFees());
    LeftUnit(AllFees());
  }

  /** The NIRA loop over record types and speeds, then the additional
      copy. */
  method AddNiraFees(fees: seq<ServiceFee>) returns (r: seq<ServiceFee>)
    requires AllAttributed(fees)
    ensures r == fees + NiraFees()
    ensures AllAttributed(r)
  {
    FeeTablesNonNegative();
    r := fees;
    var t := 0;
    while t < |VitalRecordTypes|
      invariant t <= |VitalRecordTypes| && AllAttributed(r)
      invariant r == fees + NiraSections(VitalRecordTypes[..t])
    {
      var recordType := VitalRecordTypes[t];
      var service, description := Fixed(recordType + "_certificate"), PrefixedSpaced(Capitalized(recordType) + " certificate - ");
      NiraSectionsStep(VitalRecordTypes, t);
      AppendAssoc(fees, NiraSections(VitalRecordTypes[..t]), TableFees(Nira, VitalRecordSpeeds, service, description));
      r := AddTableFees(r, Nira, VitalRecordSpeeds, service, description);
      t := t + 1;
    }
    assert VitalRecordTypes[..t] == VitalRecordTypes;
    r := Append(r, Nira, "additional_copy", "Additional copy at time of application", 500.0,
                Some("at time of application"));
  }

  /** The free TAJ services, the vehicle registration loop, the fitness
      loop and the stamp duty. */
  method AddTajFees(fees: seq<ServiceFee>) returns (r: seq<ServiceFee>)
    requires AllAttributed(fees)
    ensures r == fees + TajFees()
    ensures AllAttributed(r)
  {
    FeeTablesNonNegative();
    r := Append(fees, Taj, "trn_application", "TRN application", 0.0, Some("Free - online or in person"));
    r := Append(r, Taj, "tcc", "Tax Compliance Certificate", 0.0, Some("Free - available online via eServices"));
    r := AddTableFees(r, Taj, VehicleRows(), Fixed("vehicle_registration_24mo"),
                      PrefixedSpaced("Vehicle registration 24 months - "));
    r := AddTableFees(r, Taj, FitnessFees, Fixed("certificate_of_fitness"), PrefixedSpaced("Certificate of fitness - "));
    r := Append(r, Taj, "property_transfer_stamp_duty", "Property transfer stamp duty", 5000.0, None);
    Assoc5(fees, [Fee(Taj, "trn_application", "TRN application", 0.0, Some("Free - online or in person"))],
           [Fee(Taj, "tcc", "Tax Compliance Certificate", 0.0, Some("Free - available online via eServices"))],
           TableFees(Taj, VehicleRows(), Fixed("vehicle_registration_24mo"), PrefixedSpaced("Vehicle registration 24 months - ")),
           TableFees(Taj, FitnessFees, Fixed("certificate_of_fitness"), PrefixedSpaced("Certificate of fitness - ")),
           [Fee(Taj, "property_transfer_stamp_duty", "Property transfer stamp duty", 5000.0, None)]);
  }

  /** The ITA permit and examination, the licence loop and the road code
      test. */
  method AddItaFees(fees: seq<ServiceFee>) returns (r: seq<ServiceFee>)
    requires AllAttributed(fees)
    ensures r == fees + ItaFees()
    ensures AllAttributed(r)
  {
    r := Append(fees, Ita, "learners_permit_1yr", "Learner's permit (1 year)", 1800.0, None);
    r := Append(r, Ita, "drivers_licence_exam", "Driver's licence examination", 3240.0, None);
    FeeTablesNonNegative();
    r := AddTableFees(r, Ita, DriversLicenceFees, Suffixed("_drivers_licence"), Prefixed("Driver's licence - "));
    r := Append(r, Ita, "road_code_test", "Road code test", 0.0, Some("Free"));
    Assoc4(fees, [Fee(Ita, "learners_permit_1yr", "Learner's permit (1 year)", 1800.0, None)],
           [Fee(Ita, "drivers_licence_exam", "Driver's licence examination", 3240.0, None)],
           TableFees(Ita, DriversLicenceFees, Suffixed("_drivers_licence"), Prefixed("Driver's licence - ")),
           [Fee(Ita, "road_code_test", "Road code test", 0.0, Some("Free"))]);
  }

  /** The COJ, NLA, NEPA, police, Trade Board and Labour entries. */
  method AddOtherAgencies(fees: seq<ServiceFee>) returns (r: seq<ServiceFee>)
    requires AllAttributed(fees)
    ensures r == fees + OtherFees()
    ensures AllAttributed(r)
  {
    r := AddCojFees(fees);
    r := AddNlaNepaFees(r);
    FeeTablesNonNegative();
    r := AddTableFees(r, Police, PoliceRecordFees, Prefixed("police_record_"), Prefixed("Police record - "));
    r := AddPoliceTradeLabourFees(r);
    Assoc4(fees, CojFees(), NlaNepaFees(),
           TableFees(Police, PoliceRecordFees, Prefixed("police_record_"), Prefixed("Police record - ")),
           PoliceTradeLabourFees());
  }

  /** Appends one fee built by `Fee`. */
  method Append(fees: seq<ServiceFee>, agency: AgencyId, service: string, description: string,
                jmd: real, note: Option<string>) returns (r: seq<ServiceFee>)
    requires AllAttributed(fees) && jmd >= 0.0
    ensures r == fees + [Fee(agency, service, description, jmd, note)]
    ensures AllAttributed(r) && |r| == |fees| + 1
  {
    var f := Fee(agency, service, description, jmd, note);
    AttributedConcat(fees, [f]);
    r := fees + [f];
  }

  /** A list of fixed entries appended one by one. */
  method AppendAll(fees: seq<ServiceFee>, entries: seq<ServiceFee>) returns (r: seq<ServiceFee>)
    requires AllAttributed(fees) && AllAttributed(entries)
    ensures r == fees + entries
    ensures AllAttributed(r)
  {
    r := fees;
    var i := 0;
    while i < |entries|
      invariant i <= |entries|
      invariant r == fees + entries[..i]
      invariant AllAttributed(r)
    {
      AttributedConcat(r, [entries[i]]);
      assert entries[..i + 1] == entries[..i] + [entries[i]];
      r := r + [entries[i]];
      i := i + 1;
    }
    assert entries[..i] == entries;
  }

  /** The Companies Office entries. */
  method AddCojFees(fees: seq<ServiceFee>) returns (r: seq<ServiceFee>)
    requires AllAttributed(fees)
    ensures r == fees + CojFees()
    ensures AllAttributed(r)
  {
    r := AppendAll(fees, CojFees());
  }

  /** The land agency and environment agency entries. */
  method AddNlaNepaFees(fees: seq<ServiceFee>) returns (r: seq<ServiceFee>)
    requires AllAttributed(fees)
    ensures r == fees + NlaNepaFees()
    ensures AllAttributed(r)
  {
    r := AppendAll(fees, NlaNepaFees());
  }

  /** The police entries after the record loop, then Trade Board and
      Labour. */
  method AddPoliceTradeLabourFees(fees: seq<ServiceFee>) returns (r: seq<ServiceFee>)
    requires AllAttributed(fees)
    ensures r == fees + PoliceTradeLabourFees()
    ensures AllAttributed(r)
  {
    r := AppendAll(fees, PoliceTradeLabourFees());
  }

  /** The text `search_fees` looks in: agency id, agency name, service,
      description and note (empty when absent), joined by spaces and
      lower-cased. */
  function Haystack(f: ServiceFee): string
  {
    Lower(Join([IdText(f.agency), f.agencyName, f.service, f.description,
                match f.note case Some(n) => n case None => ""], " "))
  }

  predicate MatchesQuery(f: ServiceFee, query: string)
  {
    Contains(Haystack(f), Lower(query))
  }

  /** The fees of a list that match a query, in list order, built from
      the back as the search loop extends its prefix. */
  function FeesMatching(fees: seq<ServiceFee>, query: string): seq<ServiceFee>
  {
    if fees == [] then []
    else
      var last := fees[|fees| - 1];
      FeesMatching(fees[..|fees| - 1], query) + (if MatchesQuery(last, query) then [last] else [])
  }

  /** The search is the filter of the list by `MatchesQuery`. */
  lemma {:induction false} FeesMatchingIsFilter(fees: seq<ServiceFee>, query: string)
    ensures FeesMatching(fees, query) == Filter(fees, f => MatchesQuery(f, query))
  {
    if fees != [] {
      var n := |fees| - 1;
      FeesMatchingIsFilter(fees[..n], query);
      assert fees == fees[..n] + [fees[n]];
      FilterSnoc(fees[..n], fees[n], f => MatchesQuery(f, query));
    }
  }

  /** `search_fees` over a given fee list: exactly the fees whose haystack
      contains the lower-cased query, in list order; attributed fees give
      attributed results. */
  method SearchFeesIn(all: seq<ServiceFee>, query: string) returns (results: seq<ServiceFee>)
    ensures results == FeesMatching(all, query)
    ensures forall i :: 0 <= i < |results| ==> MatchesQuery(results[i], query)
    ensures AllAttributed(all) ==> AllAttributed(results)
  {
    var q := Lower(query);
    results := [];
    var i := 0;
    while i < |all|
      invariant i <= |all|
      invariant results == FeesMatching(all[..i], query)
    {
      var fee := all[i];
      assert all[..i + 1][..i] == all[..i];
      if Contains(Haystack(fee), q) {
        results := results + [fee];
      }
      i := i + 1;
    }
    assert all[..i] == all;
    FeesMatchingIsFilter(all, query);
  }

  /** `search_fees`: the search over `get_all_fees()`. */
  method SearchFees(query: string) returns (results: seq<ServiceFee>)
    ensures results == FeesMatching(AllFees(), query)
    ensures forall i :: 0 <= i < |results| ==> MatchesQuery(results[i], query)
    ensures AllAttributed(results)
  {
    var all := GetAllFees();
    results := SearchFeesIn(all, query);
  }

  /** The empty query matches every fee. */
  lemma EmptyQueryMatchesAll(all: seq<ServiceFee>)
    ensures FeesMatching(all, "") == all
  {
    forall f | f in all ensures MatchesQuery(f, "")
    {
      ContainsEmpty(Haystack(f));
    }
    FilterAll(all, f => MatchesQuery(f, ""));
    FeesMatchingIsFilter(all, "");
  }
}
