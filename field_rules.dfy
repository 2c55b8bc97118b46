/**
 * The format rules of the field value types (Name, Phone, School, Address, Tag, Day and the
 * subject name). Their bodies are not part of this model, so each rule is a parameter; the
 * examples the parser tests rely on are collected in `PinnedByTests`.
 */
module FieldRules {

  datatype FieldRules = FieldRules(
    isValidName: string -> bool,
    isValidPhone: string -> bool,
    isValidSchool: string -> bool,
    isValidAddress: string -> bool,
    isValidTagName: string -> bool,
    isValidDay: string -> bool,
    isValidSubjectName: string -> bool)

  /** The field whose `MESSAGE_CONSTRAINTS` a failure reports. */
  datatype Field = NameField | PhoneField | SchoolField | AddressField | TagField | DayField
                 | TimeField | SubjectNameField | LessonField

  /** The accepted and rejected values the parser tests use (after `trim()`). */
  predicate PinnedByTests(rules: FieldRules) {
    && rules.isValidName("Rachel Walker") && !rules.isValidName("R@chel")
    && rules.isValidPhone("123456") && !rules.isValidPhone("+651234")
    && rules.isValidAddress("123 Main Street #0505") && !rules.isValidAddress("")
    && rules.isValidSchool("rachel@example.com") && !rules.isValidSchool("")
    && rules.isValidTagName("friend") && rules.isValidTagName("neighbour") && !rules.isValidTagName("#friend")
    && rules.isValidSubjectName("Science") && !rules.isValidSubjectName("Sci@nce") && !rules.isValidSubjectName("")
    && rules.isValidDay("Monday")
  }
}
