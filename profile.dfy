/**
 * The form's record: seven text fields, all strings as the inputs deliver
 * them (the age too), starting out empty.
 */
module Profile {

  /** The `name` attribute of each input; a change event names one of these. */
  datatype Field = Name | Age | Occupation | ContactInformation | ShortBio | Skills | ProjectDescriptions

  datatype FormData = FormData(
    name: string,
    age: string,
    occupation: string,
    contactInformation: string,
    shortBio: string,
    skills: string,
    projectDescriptions: string)
  {
    /** `formData[field]` */
    function Get(field: Field): string
    {
      match field
      case Name => name
      case Age => age
      case Occupation => occupation
      case ContactInformation => contactInformation
      case ShortBio => shortBio
      case Skills => skills
      case ProjectDescriptions => projectDescriptions
    }

    /** `{...formData, [field]: value}`: that field takes the value, every other keeps its own. */
    function With(field: Field, value: string): (d: FormData)
      ensures d.Get(field) == value
      ensures forall other :: other != field ==> d.Get(other) == Get(other)
    {
      match field
      case Name => this.(name := value)
      case Age => this.(age := value)
      case Occupation => this.(occupation := value)
      case ContactInformation => this.(contactInformation := value)
      case ShortBio => this.(shortBio := value)
      case Skills => this.(skills := value)
      case ProjectDescriptions => this.(projectDescriptions := value)
    }
  }

  const InitialFormData := FormData("", "", "", "", "", "", "")

  /** Two records that agree on every field are the same record. */
  lemma FieldsDetermineRecord(a: FormData, b: FormData)
    requires forall f :: a.Get(f) == b.Get(f)
    ensures a == b
  {
    assert a.Get(Name) == b.Get(Name) && a.Get(Age) == b.Get(Age);
    assert a.Get(Occupation) == b.Get(Occupation) && a.Get(ContactInformation) == b.Get(ContactInformation);
    assert a.Get(ShortBio) == b.Get(ShortBio) && a.Get(Skills) == b.Get(Skills);
    assert a.Get(ProjectDescriptions) == b.Get(ProjectDescriptions);
  }

  /** Writing a value that is already there changes nothing; a second write to the same field replaces the first. */
  lemma WithLaws(d: FormData, field: Field, v: string, w: string)
    ensures d.With(field, d.Get(field)) == d
    ensures d.With(field, v).With(field, w) == d.With(field, w)
  {
    FieldsDetermineRecord(d.With(field, d.Get(field)), d);
    FieldsDetermineRecord(d.With(field, v).With(field, w), d.With(field, w));
  }
}
