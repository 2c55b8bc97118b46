# EduDex core in Dafny

EduDex is a desktop address book that tutors use to track their students. Each person has a name, a
phone, a school, an address, a set of tags and one optional subject slot (a day with a start and an
end time). The user types commands such as `add n/… p/… s/… a/… d/… st/… et/…`, `edit 2 s/…` and
`deletelesson 1 2`. Parsers turn them into command objects; the commands change an in-memory
`EduDex` through the `Model` façade; records are stored on disk in a flat JSON form.

This project models that core and proves properties of it:

- **Lessons**: the `Lesson` value, with its requirement that the start be strictly before the end,
  its text form `[Name: s, Day: d, startTime: hh:mm, endTime: hh:mm]`, and its hash and equality.
- **Persons**: the immutable `Person` record. Its weak identity `isSamePerson` compares names. Its
  strong `equals` compares every data field except the subject.
- **UniquePersons, EduDexModel**: `EduDex` is a class over a `seq<Person>`. Its invariant is that
  no two entries share an identity. It has add, replace, remove, reset and copy.
- **ModelFacade**: the `Model` class. It holds the stored `EduDex` and the predicate of the filtered
  view. The view is the stored list filtered by that predicate.
- **AddCommandParser, EditCommandParser, DeleteLessonCommandParser, AddSubjectCommandParser**: the
  four parsers.
  - A parse function or method either succeeds with a command or fails with the first error in the
    source's order.
  - Each error condition is stated on the input as an if-chain (`AddError`, `EditError`,
    `Parse`'s own ensures).
  - The edit parser is a method that fills an `EditPersonDescriptor` by setter calls, as the source
    does.
- **EditCommands**:
  - the `EditPersonDescriptor` class (nine optional fields and their setters);
  - the pure merge `createEditedPerson`;
  - `EditCommand.Execute`, which edits the model in place.
- **JsonStorage**: the `JsonAdaptedPerson` class. It has both constructors and `ToModelType`, a loop
  over the stored tags followed by field-by-field checks.

Supporting modules model code outside the core that the core calls (the argument map, `ParserUtil`,
the field rules, times, and the `Option`/`Result` wrappers):
- `ArgumentMultimap` is an input: a preamble and a map from prefix to the list of its values, the
  last value being the one `getValue` returns.
- The `ParserUtil` parsers trim, then validate. `parseIndex` accepts ASCII digits with a value from 1
  to 2^31 − 1. The upper bound stands for the `int` range of the `Integer.parseInt` call behind it.
  `parseIndex_outOfRangeInput_throwsParseException` does not reach that bound: `Integer.MAX_VALUE + 1`
  wraps in `int`, so it passes "-2147483648", which is rejected for its sign
  (ParserUtilTest.java:54-57).
- The field validators (`isValidName`, `isValidPhone`, `isValidSchool`, `isValidAddress`,
  `isValidTagName`, `isValidDay`, `isValidSubjectName`) are not part of this model. They are
  parameters: the `FieldRules` record of predicates. `PinnedByTests` fixes the examples the tests
  decide.
- A time is a minute of the day, written and read as strict `HH:mm`. `TimeText` and `ReadTime` are
  inverse on valid texts.

Interpretations where the source is inconsistent:
- `EditCommand.createEditedPerson` still reads an `Email` field and calls a five-argument `Person`
  constructor that no longer exists. The parser already sets a school. The descriptor here holds a
  **school** where the source has an email.
- `createEditedPerson` computes a subject and then drops it; the commented-out code shows the intent.
  **Interpretation**: the edited subject is the descriptor's whole subject when set, else the
  original's. The partial day and time edits do not take part, as in the live source, where their
  branch is empty; the commented-out merge of a lone day or time into the original's subject is
  not modelled (see `EditCommands.CreateEditedPerson` under Left out).
- The descriptor's `subject` field is typed `Lesson` in the source. In this model it holds the
  person's own `Subject` (day, start, end): `parseSubject` produces that, and `Person` stores it.
  Being a value, the model's `Subject` is compared structurally, so the descriptor's equality does
  not meet the `Lesson.equals` recursion (see Findings).
- `Lesson.equals` never returns for two distinct lessons (see Findings). `ParserUtilTest` expects
  structural equality, so the rest of the model uses `Lessons.Equals`.
- `DeleteLessonCommandParser` reports a non-numeric index with the invalid-format message and the
  delete-lesson usage text. `DeleteLessonCommandTest` expects the text
  "Invalid format — indices must be integers". The message format strings are not part of this
  model, so the model follows the code.

## Model

| member | source | states |
|---|---|---|
| Lessons.NewLesson | src/main/java/seedu/edudex/model/person/Lesson.java:25-33 | construction succeeds exactly when start is strictly before end; the getters then return the four arguments; otherwise the error is "Start time should be before end time." |
| Lessons.ToString | src/main/java/seedu/edudex/model/person/Lesson.java:59-64 | the text layout of `value`; its property is stated by `Lessons.ValueLayout` |
| Lessons.EqualTimesRejected | src/main/java/seedu/edudex/model/person/Lesson.java:54-56 | the check is strict: equal start and end times are rejected |
| Lessons.ConstructedLessonValid | src/main/java/seedu/edudex/model/person/Lesson.java:28-30 | every constructed lesson satisfies `isValidStartEndTime` |
| Lessons.ValueLayout | src/main/java/seedu/edudex/model/person/Lesson.java:59-64 | `value`/`toString` is the five labels "[Name: ", ", Day: ", ", startTime: ", ", endTime: " and "]" in order, with the subject, the day and the two times in their places; its length is 49 plus the subject and day lengths, and both times can be read back from it |
| Lessons.SameSubjectSameHash | src/main/java/seedu/edudex/model/person/Lesson.java:73-76 | lessons with the same subject hash alike, whatever their day and times |
| Lessons.HashCode | src/main/java/seedu/edudex/model/person/Lesson.java:73-76 | the subject's hash; its property is stated by `Lessons.SameSubjectSameHash` and `Lessons.EqualsConsistentWithHash` |
| Lessons.EqualsAsWritten | src/main/java/seedu/edudex/model/person/Lesson.java:66-71 | `equals` as written: true for the same object, false for a non-lesson; otherwise it calls itself with the same arguments |
| Lessons.EqualsAsWrittenOverflows | src/main/java/seedu/edudex/model/person/Lesson.java:66-71 | comparing two distinct lesson objects exhausts every stack depth without returning |
| Lessons.Equals | src/main/java/seedu/edudex/model/person/Lesson.java:66-71 | the corrected `equals`: it holds exactly when the two lessons are the same value |
| Lessons.EqualsIsEquivalence | src/test/java/seedu/edudex/logic/parser/ParserUtilTest.java:234-240 | the corrected equality is reflexive, symmetric and transitive, and, unlike the hash, it separates lessons that differ only in the day |
| Lessons.SameArgumentsEqual | src/test/java/seedu/edudex/logic/parser/ParserUtilTest.java:234-240 | two lessons built from the same arguments are equal and hash alike |
| Lessons.EqualsConsistentWithHash | src/main/java/seedu/edudex/model/person/Lesson.java:73-76 | equal lessons have equal hash codes |
| Persons.GetDay | src/main/java/seedu/edudex/model/person/Person.java:64-66 | the day is present exactly when the subject is, and is then the subject's day |
| Persons.IsSamePerson | src/main/java/seedu/edudex/model/person/Person.java:80-87 | a person is the same person as itself and never the same as null; `Persons.IsSamePersonIsNameEquality` states that it is name equality |
| Persons.Equals | src/main/java/seedu/edudex/model/person/Person.java:94-110 | two persons are equal exactly when they agree once the subject is ignored, and equality implies the same identity |
| Persons.IsSamePersonReflexive | src/main/java/seedu/edudex/model/person/Person.java:80-83 | every person is the same person as itself |
| Persons.IsSamePersonRejectsNull | src/main/java/seedu/edudex/model/person/Person.java:85-86 | no person is the same person as null |
| Persons.IsSamePersonIsNameEquality | src/main/java/seedu/edudex/model/person/Person.java:85-86 | same identity holds exactly when the names are equal, and is therefore symmetric |
| Persons.IsSamePersonTransitive | src/main/java/seedu/edudex/model/person/Person.java:85-86 | same identity is transitive |
| Persons.EqualsImpliesSamePerson | src/main/java/seedu/edudex/model/person/Person.java:104-109 | strong equality implies the weak identity |
| Persons.EqualsIsEquivalence | src/main/java/seedu/edudex/model/person/Person.java:94-110 | `equals` is reflexive, symmetric and transitive |
| Persons.EqualsIgnoresSubject | src/main/java/seedu/edudex/model/person/Person.java:104-109 | changing only the subject gives an equal person, though a different value |
| Persons.SamePersonNotEqual | src/main/java/seedu/edudex/model/person/Person.java:104-109 | a person with another phone is the same person but not equal |
| UniquePersons.Contains | src/main/java/seedu/edudex/model/EduDex.java:62-68 | membership by identity: some entry has the same identity |
| UniquePersons.IndexOf | src/main/java/seedu/edudex/model/EduDex.java:78-95 | the position of the first entry `equals` to the target, or −1 when there is none |
| UniquePersons.RemoveAt | src/main/java/seedu/edudex/model/EduDex.java:89-95 | removing a slot keeps the entries before it and shifts those after it down by one, in order |
| UniquePersons.AddKeepsUnique | src/main/java/seedu/edudex/model/EduDex.java:70-76 | appending a person whose identity is absent keeps the list free of duplicates |
| UniquePersons.ReplaceKeepsUnique | src/main/java/seedu/edudex/model/EduDex.java:78-87 | replacing a slot with a person of the same identity, or of an absent one, keeps the list free of duplicates |
| UniquePersons.RemoveKeepsUnique | src/main/java/seedu/edudex/model/EduDex.java:89-95 | removing a slot keeps the list free of duplicates, and its identity is then gone |
| UniquePersons.ListEqualsIsEquivalence | src/main/java/seedu/edudex/model/EduDex.java:111-124 | pairwise `equals` of two lists is an equivalence |
| UniquePersons.Filter | src/main/java/seedu/edudex/model/Model.java:80-87 | the filtered list holds exactly the entries that satisfy the predicate, and is no longer than the list |
| UniquePersons.FilterConcat | src/main/java/seedu/edudex/model/Model.java:80-87 | filtering distributes over concatenation, so the order of the entries is kept |
| UniquePersons.FilterAll | src/main/java/seedu/edudex/model/Model.java:15-16 | filtering by a predicate that accepts everyone gives the whole list |
| EduDexModel.EduDex.constructor | src/main/java/seedu/edudex/model/EduDex.java:27-31 | a new EduDex is empty |
| EduDexModel.EduDex.Copy | src/main/java/seedu/edudex/model/EduDex.java:33-39 | the copy holds the persons of the original, in order |
| EduDexModel.EduDex.SetPersons | src/main/java/seedu/edudex/model/EduDex.java:43-49 | a list without duplicates replaces the contents |
| EduDexModel.EduDex.ResetData | src/main/java/seedu/edudex/model/EduDex.java:51-58 | the contents become the other EduDex's persons |
| EduDexModel.EduDex.HasPerson | src/main/java/seedu/edudex/model/EduDex.java:62-68 | true exactly when a stored person has the same name |
| EduDexModel.EduDex.AddPerson | src/main/java/seedu/edudex/model/EduDex.java:70-76 | requires the identity to be absent; the person is appended, the earlier entries are unchanged, and the list stays free of duplicates |
| EduDexModel.EduDex.SetPerson | src/main/java/seedu/edudex/model/EduDex.java:78-87 | requires the target present and no identity clash; only the target's slot changes, to the edited person, and the list stays free of duplicates |
| EduDexModel.EduDex.RemovePerson | src/main/java/seedu/edudex/model/EduDex.java:89-95 | requires the key present; its slot is removed, the others keep their order, and its identity is gone |
| EduDexModel.EduDex.Equals | src/main/java/seedu/edudex/model/EduDex.java:111-124 | `equals`; its property is stated by `EduDexModel.EduDex.EqualsIsEquivalence` |
| EduDexModel.EduDex.EqualsIsEquivalence | src/main/java/seedu/edudex/model/EduDex.java:111-124 | EduDex equality is reflexive, symmetric and transitive, and holds exactly when the person lists are equal, whether or not the objects are the same |
| ModelFacade.ShowAllShowsEveryone | src/main/java/seedu/edudex/model/Model.java:15-16 | the show-all predicate accepts every person, so its view is the whole list |
| ModelFacade.Model.constructor | src/main/java/seedu/edudex/MainApp.java:97 | a model over a fresh copy of the initial data, with the view showing everyone |
| ModelFacade.Model.SetEduDex | src/main/java/seedu/edudex/model/Model.java:48-51 | the stored list becomes the given EduDex's persons |
| ModelFacade.Model.HasPerson | src/main/java/seedu/edudex/model/Model.java:56-59 | identity membership in the stored list |
| ModelFacade.Model.DeletePerson | src/main/java/seedu/edudex/model/Model.java:61-65 | requires the target present; removes its slot and its identity |
| ModelFacade.Model.AddPerson | src/main/java/seedu/edudex/model/Model.java:67-71 | requires the identity absent; appends the person |
| ModelFacade.Model.SetPerson | src/main/java/seedu/edudex/model/Model.java:73-78 | requires the target present and no identity clash; replaces exactly the target's slot |
| ModelFacade.Model.FilteredPersonList | src/main/java/seedu/edudex/model/Model.java:80-81 | the view holds exactly the stored persons that satisfy the current predicate |
| ModelFacade.Model.UpdateFilteredPersonList | src/main/java/seedu/edudex/model/Model.java:83-87 | afterwards the view is the stored list filtered by the new predicate (all of it for an accept-all predicate); the stored list is untouched |
| AddCommandParser.ArePrefixesPresent | src/main/java/seedu/edudex/logic/parser/AddCommandParser.java:65-67 | true exactly when every listed prefix has a value |
| AddCommandParser.Parse | src/main/java/seedu/edudex/logic/parser/AddCommandParser.java:36-59 | fails exactly when `AddError` names an error: a missing required prefix or a non-empty preamble, then a repeated n/, p/, s/ or a/, then each field in turn; on success the person holds exactly the trimmed values and the subject of d/, st/, et/ |
| AddCommandParser.NoTagsNoTagSet | src/main/java/seedu/edudex/logic/parser/AddCommandParser.java:52 | giving no t/ yields a person without tags |
| AddCommandParser.InvalidTagFails | src/main/java/seedu/edudex/logic/parser/AddCommandParser.java:52 | one invalid tag fails the whole parse |
| AddCommandParser.AddRoundTrip | src/main/java/seedu/edudex/logic/parser/AddCommandParser.java:36-59 | writing a valid, trimmed person out as add arguments (tags listed in any order and with repeats) and parsing them gives back that person |
| EditCommandParser.ParseTagsForEdit | src/main/java/seedu/edudex/logic/parser/EditCommandParser.java:103-111 | no t/ gives "leave alone", a single empty t/ gives the empty set, anything else the set of trimmed tags when all are valid and the tag error otherwise |
| EditCommandParser.DescribedEditsUnique | src/main/java/seedu/edudex/logic/parser/EditCommandParser.java:53-89 | the arguments determine the descriptor: at most one set of edits fits them |
| EditCommandParser.DescribedEditsEdited | src/main/java/seedu/edudex/logic/parser/EditCommandParser.java:91-93 | the parsed descriptor edits something exactly when some field prefix was given |
| EditCommandParser.ClearTagsEdit | src/main/java/seedu/edudex/logic/parser/EditCommandParser.java:103-111 | a single empty t/ clears the edited person's tags |
| EditCommandParser.NameOnlyEdit | src/main/java/seedu/edudex/logic/parser/EditCommandParser.java:53-55 | giving only n/ changes only the name |
| EditCommandParser.PartialSubjectEditKeepsSubject | src/main/java/seedu/edudex/logic/parser/EditCommandParser.java:82-87 | without all three of d/, st/ and et/ the edited person keeps the original subject |
| EditCommandParser.SetPersonFields | src/main/java/seedu/edudex/logic/parser/EditCommandParser.java:53-64 | fails exactly on the first of n/, p/, s/, a/ that is given and invalid; otherwise each given field is set to its trimmed value and the absent fields stay unset |
| EditCommandParser.SetSubjectFields | src/main/java/seedu/edudex/logic/parser/EditCommandParser.java:66-87 | fails exactly on an invalid d/, then an invalid st/ or et/; otherwise day and times are set as given, and the whole subject is set exactly when all three are given |
| EditCommandParser.ParseFields | src/main/java/seedu/edudex/logic/parser/EditCommandParser.java:51-93 | fails exactly when `FieldsError` names an error (fields, tags, then "At least one field to edit must be provided."); on success a fresh descriptor holding exactly what the arguments describe |
| EditCommandParser.Parse | src/main/java/seedu/edudex/logic/parser/EditCommandParser.java:35-96 | fails exactly when `EditError` names an error: an invalid index gives the edit usage message, then repeated single-valued prefixes, then the field errors; on success the command's index is the parsed one and its descriptor is what the arguments describe |
| EditCommands.IsAnyFieldEdited | src/main/java/seedu/edudex/logic/commands/EditCommand.java:208-210 | true exactly when one of the nine fields is set |
| EditCommands.EditsEqual | src/main/java/seedu/edudex/logic/commands/EditCommand.java:314-320 | two sets of edits are equal exactly when they agree once day, start and end are cleared |
| EditCommands.EditsEqualIgnoresPartialSubject | src/main/java/seedu/edudex/logic/commands/EditCommand.java:304-320 | descriptor equality is an equivalence, and descriptors differing only in the day are equal but distinct |
| EditCommands.CreateEditedPerson | src/main/java/seedu/edudex/logic/commands/EditCommand.java:110-142 | the merge; its properties are stated by `EditCommands.SetFieldsTaken`, `EditCommands.SetFieldsOverride`, `EditCommands.UnsetFieldsKept`, `EditCommands.PartialSubjectIgnored`, `EditCommands.EditIsIdempotent` and `EditCommands.EditKeepsIdentity` |
| EditCommands.NoEditsKeepsPerson | src/main/java/seedu/edudex/logic/commands/EditCommand.java:110-142 | an empty descriptor gives back the original person |
| EditCommands.EditIsIdempotent | src/main/java/seedu/edudex/logic/commands/EditCommand.java:110-142 | applying an edit twice is the same as applying it once |
| EditCommands.SetFieldsOverride | src/main/java/seedu/edudex/logic/commands/EditCommand.java:113-124 | a set field does not depend on the original, and a descriptor with all six fields set yields the same person from any original |
| EditCommands.SetFieldsTaken | src/main/java/seedu/edudex/logic/commands/EditCommand.java:113-138 | every set field of the edited person is the descriptor's value, and a set subject is the descriptor's whole subject |
| EditCommands.UnsetFieldsKept | src/main/java/seedu/edudex/logic/commands/EditCommand.java:113-138 | every unset field, the subject included, keeps the original's value |
| EditCommands.PartialSubjectIgnored | src/main/java/seedu/edudex/logic/commands/EditCommand.java:125-134 | day, start time and end time alone change nothing |
| EditCommands.EditKeepsIdentity | src/main/java/seedu/edudex/logic/commands/EditCommand.java:97-99 | the edited person keeps the original's identity exactly when the name is unset or unchanged |
| EditCommands.EditPersonDescriptor.constructor | src/main/java/seedu/edudex/logic/commands/EditCommand.java:185 | a new descriptor edits nothing |
| EditCommands.EditPersonDescriptor.Copy | src/main/java/seedu/edudex/logic/commands/EditCommand.java:191-203 | the copy holds the same nine fields and is equal to the original |
| EditCommands.EditPersonDescriptor.SetName | src/main/java/seedu/edudex/logic/commands/EditCommand.java:212-214 | sets the name and nothing else |
| EditCommands.EditPersonDescriptor.SetPhone | src/main/java/seedu/edudex/logic/commands/EditCommand.java:220-222 | sets the phone and nothing else |
| EditCommands.EditPersonDescriptor.SetSchool | src/main/java/seedu/edudex/logic/commands/EditCommand.java:228-230 | sets the school (the source's email slot) and nothing else |
| EditCommands.EditPersonDescriptor.SetAddress | src/main/java/seedu/edudex/logic/commands/EditCommand.java:236-238 | sets the address and nothing else |
| EditCommands.EditPersonDescriptor.SetSubject | src/main/java/seedu/edudex/logic/commands/EditCommand.java:244-246 | sets the whole subject and nothing else |
| EditCommands.EditPersonDescriptor.SetDay | src/main/java/seedu/edudex/logic/commands/EditCommand.java:258-260 | sets the day and nothing else |
| EditCommands.EditPersonDescriptor.SetStartTime | src/main/java/seedu/edudex/logic/commands/EditCommand.java:268-270 | sets the start time and nothing else |
| EditCommands.EditPersonDescriptor.SetEndTime | src/main/java/seedu/edudex/logic/commands/EditCommand.java:278-280 | sets the end time and nothing else |
| EditCommands.EditPersonDescriptor.SetTags | src/main/java/seedu/edudex/logic/commands/EditCommand.java:288-290 | sets the tags and nothing else; a set is a value here, which stands in for the defensive copy |
| EditCommands.EditPersonDescriptor.Equals | src/main/java/seedu/edudex/logic/commands/EditCommand.java:304-320 | the same object, or the same nine fields once day, start and end are cleared |
| EditCommands.EditOutcome | src/main/java/seedu/edudex/logic/commands/EditCommand.java:84-99 | an index past the view gives the invalid-index error exactly; every other failure is the duplicate-person error with "This person already exists in EduDex."; success holds exactly when the merged person keeps the target's identity or has one not yet stored, and the result is then the merged person |
| EditCommands.EditCommand.constructor | src/main/java/seedu/edudex/logic/commands/EditCommand.java:71-77 | keeps the index and a fresh copy of the descriptor |
| EditCommands.EditCommand.Execute | src/main/java/seedu/edudex/logic/commands/EditCommand.java:80-104 | the result is `EditOutcome` of the view and the list before the call; a failure changes nothing; a success replaces the target's slot with the edited person, resets the view to show everyone, and keeps the list free of duplicates |
| EditCommands.EditCommand.Equals | src/main/java/seedu/edudex/logic/commands/EditCommand.java:144-158 | a command equals itself, and two distinct commands are equal exactly when they have the same index and descriptors equal once day, start and end are cleared |
| DeleteLessonCommandParser.Parse | src/main/java/seedu/edudex/logic/parser/DeleteLessonCommandParser.java:15-48 | the trimmed input must split into exactly two runs of digits, else the usage message; then an out-of-range student index gives "Invalid student index", checked before the lesson index's "Invalid lesson index"; otherwise both one-based indices |
| DeleteLessonCommandParser.ParseOfDecimals | src/main/java/seedu/edudex/logic/parser/DeleteLessonCommandParser.java:15-48 | any two numbers written in decimal with a space parse back to those numbers as indices, or to the error of the first one out of range |
| DeleteLessonCommandParser.ParseOneTwo | src/test/java/seedu/edudex/logic/commands/DeleteLessonCommandTest.java:171-176 | "1 2" gives student index 1 and lesson index 2 |
| DeleteLessonCommandParser.ParseZeroZero | src/main/java/seedu/edudex/logic/parser/DeleteLessonCommandParser.java:35-45 | "0 0" reports the student index, which is checked first |
| DeleteLessonCommandParser.ParseZeroOne | src/test/java/seedu/edudex/logic/commands/DeleteLessonCommandTest.java:157-162 | "0 1" gives "Invalid student index" |
| DeleteLessonCommandParser.ParseOneZero | src/test/java/seedu/edudex/logic/commands/DeleteLessonCommandTest.java:164-169 | "1 0" gives "Invalid lesson index" |
| DeleteLessonCommandParser.ParseOneLetter | src/main/java/seedu/edudex/logic/parser/DeleteLessonCommandParser.java:27-30 | "1 a" fails with the usage message |
| DeleteLessonCommandParser.ParseLetterOne | src/main/java/seedu/edudex/logic/parser/DeleteLessonCommandParser.java:27-30 | "a 1" fails with the usage message |
| AddSubjectCommandParser.Parse | src/main/java/seedu/edudex/logic/parser/AddSubjectCommandParser.java:21-29 | succeeds exactly when the trimmed text is a valid subject name and then holds that trimmed name; every failure is the add-subject usage message |
| AddSubjectCommandParser.ParsePadded | src/main/java/seedu/edudex/logic/parser/AddSubjectCommandParser.java:23-24 | blanks around a valid trimmed name are dropped |
| AddSubjectCommandParser.ParseBlanks | src/main/java/seedu/edudex/logic/parser/AddSubjectCommandParser.java:25-28 | blanks alone fail with the usage message when the empty name is invalid |
| AddSubjectCommandParser.ParseWhitespace | src/test/java/seedu/edudex/logic/parser/ParserUtilTest.java:211-214 | " \t\r\n" is rejected |
| AddSubjectCommandParser.ParseInvalidName | src/test/java/seedu/edudex/logic/parser/ParserUtilTest.java:216-219 | "Sci@nce" is rejected with the usage message |
| AddSubjectCommandParser.ParseScience | src/test/java/seedu/edudex/logic/parser/ParserUtilTest.java:227-232 | "Science" between blanks gives the command for "Science" |
| JsonStorage.StoredTags | src/main/java/seedu/edudex/storage/JsonAdaptedPerson.java:118 | a name is a tag of the loaded person exactly when it is in the stored list |
| JsonStorage.StoredTagsCollapse | src/main/java/seedu/edudex/storage/JsonAdaptedPerson.java:118 | repeated stored tags collapse: never more tags than entries, and a repeat adds none |
| JsonStorage.ElementsOf | src/main/java/seedu/edudex/storage/JsonAdaptedPerson.java:67-69 | lists each tag of the set exactly once |
| JsonStorage.JsonAdaptedPerson.constructor | src/main/java/seedu/edudex/storage/JsonAdaptedPerson.java:42-57 | keeps every field as given; a null tag list becomes an empty one |
| JsonStorage.JsonAdaptedPerson.FromPerson | src/main/java/seedu/edudex/storage/JsonAdaptedPerson.java:62-73 | the fields are the person's texts, the tags each once, the day and the times as "HH:mm" |
| JsonStorage.JsonAdaptedPerson.ToModelType | src/main/java/seedu/edudex/storage/JsonAdaptedPerson.java:80-146 | fails exactly with the first error in the order tags, name, phone, school, address, day, start, end, each field missing before invalid; on success the person holds the stored values, the set of stored tags and the subject they describe |
| JsonStorage.SaveAndLoad | src/main/java/seedu/edudex/storage/JsonAdaptedPerson.java:62-146 | storing a valid person with a subject and loading it back gives the same person |
| ParserUtil.ParseIndex | src/test/java/seedu/edudex/logic/parser/ParserUtilTest.java:48-66 | succeeds exactly when the trimmed text is digits with a value from 1 to 2^31 − 1, and the one-based index is that value |
| ParserUtil.ParseIndexOfDecimal | src/test/java/seedu/edudex/logic/parser/ParserUtilTest.java:59-66 | a number in range written in decimal with blanks around it parses to that index |
| ParserUtil.ParseField | src/test/java/seedu/edudex/logic/parser/ParserUtilTest.java:84-89 | a field parser accepts exactly the values whose trimmed text is valid and returns that trimmed text |
| ParserUtil.ParseFieldPadded | src/test/java/seedu/edudex/logic/parser/ParserUtilTest.java:84-89 | blanks around a valid value are dropped |
| ParserUtil.ParseTags | src/test/java/seedu/edudex/logic/parser/ParserUtilTest.java:188-204 | succeeds exactly when every trimmed tag is valid, giving the set of trimmed tags |
| ParserUtil.ParseTime | src/test/java/seedu/edudex/logic/parser/ParserUtilTest.java:248-252 | succeeds exactly on a valid trimmed "HH:mm", and the time writes back as that text |
| ParserUtil.ParseSubject | src/main/java/seedu/edudex/logic/parser/AddCommandParser.java:53-54 | succeeds exactly when the day and both times are valid, and then holds them |
| ParserUtil.ParseLesson | src/test/java/seedu/edudex/logic/parser/ParserUtilTest.java:234-240 | succeeds exactly when the subject name, day and times are valid and the start precedes the end; the lesson then holds the trimmed name and day and the two times its texts denote |
| ParserUtilExamples.ParseIndexOne | src/test/java/seedu/edudex/logic/parser/ParserUtilTest.java:59-62 | "1" gives the first index |
| ParserUtilExamples.ParseIndexPaddedOne | src/test/java/seedu/edudex/logic/parser/ParserUtilTest.java:64-65 | "  1  " gives the first index |
| ParserUtilExamples.ParseIndexNotNumber | src/test/java/seedu/edudex/logic/parser/ParserUtilTest.java:48-51 | "10 a" is rejected |
| ParserUtilExamples.ParseIndexWrappedMaxPlusOne | src/test/java/seedu/edudex/logic/parser/ParserUtilTest.java:53-57 | "-2147483648", the text the test passes once `Integer.MAX_VALUE + 1` wraps in `int`, is rejected |
| ParserUtilExamples.ParseIndexAboveIntRange | src/test/java/seedu/edudex/logic/parser/ParserUtilTest.java:53-57 | 2^31, the value the test's name intends before wrap-around, is rejected by the model's `int` bound |
| ParserUtilExamples.ParseNamePadded | src/test/java/seedu/edudex/logic/parser/ParserUtilTest.java:84-89 | a valid name between blanks gives the bare name |
| ParserUtilExamples.ParseTagPadded | src/test/java/seedu/edudex/logic/parser/ParserUtilTest.java:176-181 | a valid tag between blanks gives the bare tag |
| ParserUtilExamples.ParseNameInvalid | src/test/java/seedu/edudex/logic/parser/ParserUtilTest.java:73-76 | "R@chel" is rejected |
| ParserUtilExamples.ParsePhoneInvalid | src/test/java/seedu/edudex/logic/parser/ParserUtilTest.java:96-99 | "+651234" is rejected |
| ParserUtilExamples.ParseBlankAddressSchool | src/test/java/seedu/edudex/logic/parser/ParserUtilTest.java:119-145 | a blank address and a blank school are rejected |
| ParserUtilExamples.ParseTagsOneInvalid | src/test/java/seedu/edudex/logic/parser/ParserUtilTest.java:188-191 | one invalid tag among valid ones fails the set |
| ParserUtilExamples.ParseTagsTwo | src/test/java/seedu/edudex/logic/parser/ParserUtilTest.java:198-204 | "friend" and "neighbour" give the set of both |
| ParserUtilExamples.ParseTimeNine | src/test/java/seedu/edudex/logic/parser/ParserUtilTest.java:248-252 | "09:00" is minute 540 |
| ParserUtilExamples.ParseLessonExample | src/test/java/seedu/edudex/logic/parser/ParserUtilTest.java:234-240 | "Science", "Monday", "09:00", "11:00" give the lesson the test builds directly |

## Left out

- The Java `ObservableList` views (`getPersonList`, `getFilteredPersonList`) are modelled as plain sequence values. Listeners and the unmodifiable wrapper are not modelled.
- `sortFilteredPersonList` and `getSortedPersonList` (Model.java:89-91) are left out. Their comparator and the sorted view belong to `ModelManager`, which is not part of this model.
- The user-preference, GUI-setting and file-path accessors of `Model` are left out. They are configuration, not logic.
- `ModelFacade.Model.constructor` is modelled on the plain behaviour: a copy of the data, showing everyone. `ModelManager`, which implements `Model`, is not part of this model.
- `ModelFacade.Model.AddPerson` leaves the filter unchanged, because the `ModelManager` body that may reset it is not part of this model.
- The `UniquePersonList` bodies are not part of this model. The list is a `seq<Person>`. The EduDex doc comments ("must not already exist", "must exist") become `requires`, because the exceptions those paths throw are not visible.
- `ArgumentTokenizer` is not part of this model. Parsers take the tokenized `ArgumentMultimap` as their input.
- The field validators and the bodies of `Name`, `Phone`, `School`, `Address`, `Tag`, `Day` and the subject-name type are not part of this model. They are the `FieldRules` parameters, and the test examples pin them.
- The `JsonAdaptedTag` bodies are not part of this model. A stored tag is its name, checked with the tag-name rule.
- `Time` is a minute of the day in strict "HH:mm" form. This stands in for `java.time.LocalTime`, whose parser is not modelled.
- `toString` output (`ToStringBuilder`) is left out, except for `Lesson.toString`, which is what `Lesson.value` holds.
- `Lessons.ToString`: the text goes through `String.format` in the source, so a `%` inside the subject or day would be read as a format directive. The model takes the text literally. The validators that would exclude `%` are not part of this model.
- `Person.hashCode` is left out. It includes the subject while `equals` does not.
- `Lessons.HashCode`: the hash of a subject name is a parameter, because the subject type's `hashCode` is not part of this model.
- `ParserUtil.ParseIndex`: the upper bound 2^31 − 1 is taken from the `int` range of `Integer.parseInt`. The `ParserUtil` and `StringUtil` bodies are not part of this model. The out-of-range test does not exercise the bound: its argument `Integer.MAX_VALUE + 1` wraps to −2^31 in `int` and is rejected for its sign.
- `ParserUtil.ParseSubject`: the body of the `Subject` constructor is not part of this model, and the model's `Subject` accepts any start and end time. The catch at EditCommand.java:90-95, commented as reporting a start time after the end time, suggests that the constructor checks that the start is before the end. If it does, then a subject whose start is not before its end fails in the source on add, on edit and on load, but succeeds in the model.
- `AddCommandParser.Parse`: accepts st/ ≥ et/, which the source may reject (see `ParserUtil.ParseSubject`).
- `JsonStorage.JsonAdaptedPerson.ToModelType`: loads a stored start ≥ end, which the source may reject (see `ParserUtil.ParseSubject`).
- `EditCommands.EditCommand.Execute`: the `IllegalArgumentException` catch (EditCommand.java:90-95) is not modelled. The model builds the edited person with no check that could throw (see `ParserUtil.ParseSubject`).
- `EditCommands.CreateEditedPerson`: the commented-out merge at EditCommand.java:129-134 would combine a lone d/, st/ or et/ with the original's subject. It is not modelled, because in the live code that branch is empty. As a consequence `edit 1 d/Tuesday` passes the "at least one field" check and changes nothing (`EditCommandParser.PartialSubjectEditKeepsSubject`, `EditCommands.PartialSubjectIgnored`).
- `ParserUtil.ParseLesson`: the body of `parseLesson` is not part of this model. The model assumes that it turns the `IllegalArgumentException` of the `Lesson` constructor (start not before end) into a `ParseException` carrying the lesson constraint message, rather than letting it escape.
- `EditCommands.EditCommand.Execute` returns the edited person where the source returns a `CommandResult` holding its formatted text, because message formatting is not part of this model.
- `EditCommandParser.SetSubjectFields`: in the model, the `parseSubject` call cannot fail after the three single-field checks, because the model's `Subject` has no ordering check. The source's call may fail there (see `ParserUtil.ParseSubject`).
- `JsonStorage.JsonAdaptedPerson.FromPerson` requires a subject. The source dereferences it and would throw a `NullPointerException` without one.
- `JsonStorage.ElementsOf`: the iteration order of the source's `HashSet` is an arbitrary choice, so the model only states that each tag appears once.
- "Person's X field is missing!" (`JsonStorage.MissingFieldMessage`) is the text the source builds for a `MissingField` error. Its field names for name, phone, school and address come from class names that are not part of this model, and the model writes them out.
- `DeleteLessonCommandParser.Parse`: Java's `\s` and `\d` classes are modelled as ASCII whitespace and ASCII digits. The usage and invalid-format message texts are constants outside this model; only their identity is modelled.
- `MainApp` start-up, storage I/O and JSON text encoding are left out; only the record ⟷ `Person` conversion is modelled.
- The test fixtures (`PersonBuilder`, `TypicalPersons`) are not modelled.

## Findings

| source | as written | input that shows it | evidently intended | confidence | as-written member | corrected member |
|---|---|---|---|---|---|---|
| src/main/java/seedu/edudex/model/person/Lesson.java:66-71 | `equals` tests `other == this`, then calls `this.equals((Lesson) other)`; with no `equals(Lesson)` overload this is the same method with the same argument | two distinct `Lesson` objects, for example the two built in ParserUtilTest.java:236-239: the call recurses until `StackOverflowError` | structural equality over subject, day, start and end time, as the test asserts | high (not executed) | Lessons.EqualsAsWrittenOverflows | Lessons.Equals |

The same recursion is reached from a second call site: `EditPersonDescriptor.equals`
(EditCommand.java:320) compares its `Lesson`-typed subjects with `Objects.equals`, which calls
`Lesson.equals` on two distinct lesson objects. The model's descriptor holds a `Subject` value, and
`EditCommands.EditsEqual` compares it structurally, so the model does not reproduce this call.
