/**
 * An employee as the store holds it: a plain record of string fields
 * (`id`, `firstName`, `lastName`, `email`, `phone`, `dateOfBirth`,
 * `dateOfEmployment`, `department`, `position`, `createdAt`, `updatedAt`).
 * A record is a map from field name to value, so an object spread
 * `{...a, ...b}` is the right-biased map union `a + b`.
 */
module EmployeeRecord {
  import opened Wrappers

  type Employee = map<string, string>

  /** `employee.id`: absent when the record has no `id` field. */
  function IdOf(e: Employee): Option<string>
  {
    if "id" in e then Some(e["id"]) else None
  }

  /** `employee.id === id` for a string `id`. */
  predicate HasId(e: Employee, id: string)
  {
    "id" in e && e["id"] == id
  }

  /** `employee[field] || ''`. */
  function FieldOr(e: Employee, field: string): string
  {
    if field in e then e[field] else ""
  }
}
