/**
 * The answer record, its field names and the field-to-message error map
 * shared by the validator and the form controller.
 */
module Types {

  /** The eleven keys of the answer record. */
  datatype Field =
    | FullName | Email | Phone | IdNumber
    | VehicleMake | VehicleModel | YearOfManufacture | RegistrationNumber | VehicleValue
    | CoverageType | VehicleUsage

  /** The answer record: every answer is kept as the text the user typed. */
  datatype FormData = FormData(
    fullName: string,
    email: string,
    phone: string,
    idNumber: string,
    vehicleMake: string,
    vehicleModel: string,
    yearOfManufacture: string,
    registrationNumber: string,
    vehicleValue: string,
    coverageType: string,
    vehicleUsage: string)
  {
    /** `formData[field]`. */
    function Get(f: Field): string {
      match f
      case FullName => fullName
      case Email => email
      case Phone => phone
      case IdNumber => idNumber
      case VehicleMake => vehicleMake
      case VehicleModel => vehicleModel
      case YearOfManufacture => yearOfManufacture
      case RegistrationNumber => registrationNumber
      case VehicleValue => vehicleValue
      case CoverageType => coverageType
      case VehicleUsage => vehicleUsage
    }

    /** `{ ...formData, [field]: value }`: the record with one answer replaced
        and every other answer kept. */
    function With(f: Field, v: string): (r: FormData)
      ensures r.Get(f) == v
      ensures forall g :: g != f ==> r.Get(g) == Get(g)
    {
      match f
      case FullName => this.(fullName := v)
      case Email => this.(email := v)
      case Phone => this.(phone := v)
      case IdNumber => this.(idNumber := v)
      case VehicleMake => this.(vehicleMake := v)
      case VehicleModel => this.(vehicleModel := v)
      case YearOfManufacture => this.(yearOfManufacture := v)
      case RegistrationNumber => this.(registrationNumber := v)
      case VehicleValue => this.(vehicleValue := v)
      case CoverageType => this.(coverageType := v)
      case VehicleUsage => this.(vehicleUsage := v)
    }
  }

  /** The record the form starts with, and returns to on reset. */
  const EmptyForm := FormData("", "", "", "", "", "", "", "", "", "", "")

  /** Field-level messages; a field without an entry has no error. */
  type Errors = map<Field, string>

  /** Two records that agree on every field are the same record. */
  lemma SameAnswersSameRecord(a: FormData, b: FormData)
    requires forall f :: a.Get(f) == b.Get(f)
    ensures a == b
  {
    assert a.Get(FullName) == b.Get(FullName) && a.Get(Email) == b.Get(Email);
    assert a.Get(Phone) == b.Get(Phone) && a.Get(IdNumber) == b.Get(IdNumber);
    assert a.Get(VehicleMake) == b.Get(VehicleMake) && a.Get(VehicleModel) == b.Get(VehicleModel);
    assert a.Get(YearOfManufacture) == b.Get(YearOfManufacture);
    assert a.Get(RegistrationNumber) == b.Get(RegistrationNumber);
    assert a.Get(VehicleValue) == b.Get(VehicleValue) && a.Get(CoverageType) == b.Get(CoverageType);
    assert a.Get(VehicleUsage) == b.Get(VehicleUsage);
  }
}
