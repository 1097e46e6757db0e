/** The User record (models/User.js): identity, display name parts,
    role and account state. Password hashing is not part of this model. */
module UserModel {
  import opened Common

  /** The eight values of the `rol` enum, stored with the spelling below. */
  datatype Role = Admin | ProjeYoneticisi | TakimLideri | EkipLideri | Yazilim | Satis | MusteriDestek | Kullanici
  {
    function Code(): string
    {
      match this
      case Admin => "Admin"
      case ProjeYoneticisi => "Proje Yöneticisi"
      case TakimLideri => "Takım Lideri"
      case EkipLideri => "Ekip Lideri"
      case Yazilim => "Yazılım"
      case Satis => "Satış"
      case MusteriDestek => "Müşteri Destek"
      case Kullanici => "Kullanıcı"
    }
  }

  const DEFAULT_ROLE: Role := Kullanici

  /** The stored role for a string, if it is one of the enum's values. */
  function ParseRole(s: string): (r: Option<Role>)
    ensures r.Some? ==> r.value.Code() == s
    ensures forall role: Role :: role.Code() == s ==> r == Some(role)
  {
    if s == "Admin" then Some(Admin)
    else if s == "Proje Yöneticisi" then Some(ProjeYoneticisi)
    else if s == "Takım Lideri" then Some(TakimLideri)
    else if s == "Ekip Lideri" then Some(EkipLideri)
    else if s == "Yazılım" then Some(Yazilim)
    else if s == "Satış" then Some(Satis)
    else if s == "Müşteri Destek" then Some(MusteriDestek)
    else if s == "Kullanıcı" then Some(Kullanici)
    else None
  }

  /** The `durum` enum: active, passive, suspended. */
  datatype Durum = Aktif | Pasif | Askida
  {
    function Code(): string
    {
      match this
      case Aktif => "aktif"
      case Pasif => "pasif"
      case Askida => "askida"
    }
  }

  const DEFAULT_DURUM: Durum := Aktif

  /** email, ad and soyad are required; rol and durum take their enums. */
  datatype User = User(id: int, email: string, ad: string, soyad: string, rol: Role, durum: Durum)

  /** `${ad} ${soyad}`, the name sales and reports record. */
  function FullName(u: User): string
  {
    u.ad + " " + u.soyad
  }

  /** The `unique: true` constraint on email. */
  ghost predicate EmailsUnique(users: map<int, User>)
  {
    forall a, b :: a in users && b in users && a != b ==> users[a].email != users[b].email
  }
}
