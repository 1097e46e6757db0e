/** The Company record (models/Company.js), reduced to what the bulk sale uses. */
module CompanyModel {
  datatype Company = Company(id: int, name: string)
}
