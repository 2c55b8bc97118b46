/**
 * The argument multimap a command's arguments are tokenized into: the preamble (the text before
 * the first prefix) and, for every prefix, the values given for it in input order.
 */
module Arguments {
  import opened Wrappers
  import opened CliSyntax
  import opened ParserUtil

  datatype ArgumentMultimap = ArgumentMultimap(preamble: string, values: map<Prefix, seq<string>>)

  /** `getValue`: the last value given for `p`, if there is one. */
  function GetValue(m: ArgumentMultimap, p: Prefix): (v: Option<string>)
    ensures v.Some? <==> p in m.values && |m.values[p]| > 0
    ensures v.Some? ==> v.value == m.values[p][|m.values[p]| - 1]
  {
    if p in m.values && |m.values[p]| > 0 then Some(m.values[p][|m.values[p]| - 1]) else None
  }

  /** The last value of `p`, or "" when there is none (used only after presence is checked). */
  function ValueOf(m: ArgumentMultimap, p: Prefix): string {
    GetValue(m, p).GetOr("")
  }

  /** `getAllValues`: every value given for `p`, or none. */
  function GetAllValues(m: ArgumentMultimap, p: Prefix): seq<string> {
    if p in m.values then m.values[p] else []
  }

  /** The prefixes among `ps` that were given more than once. */
  function DuplicatedPrefixes(m: ArgumentMultimap, ps: set<Prefix>): set<Prefix> {
    set p | p in ps && |GetAllValues(m, p)| > 1
  }

  /** `verifyNoDuplicatePrefixesFor`: rejects repeating any of `ps`, naming all that repeat. */
  function VerifyNoDuplicatePrefixesFor(m: ArgumentMultimap, ps: set<Prefix>): (r: Result<(), ParseError>)
    ensures r.Failure? <==> exists p :: p in ps && |GetAllValues(m, p)| > 1
    ensures r.Failure? ==> r.error == DuplicatePrefixes(DuplicatedPrefixes(m, ps))
  {
    var dups := DuplicatedPrefixes(m, ps);
    assert forall p :: p in dups <==> p in ps && |GetAllValues(m, p)| > 1;
    if dups == {} then Success(()) else
      assert exists p :: p in dups;
      Failure(DuplicatePrefixes(dups))
  }

  /** A single value given for a prefix is never a duplicate, and is its value. */
  lemma SingleValue(m: ArgumentMultimap, p: Prefix, v: string)
    requires p in m.values && m.values[p] == [v]
    ensures GetValue(m, p) == Some(v) && GetAllValues(m, p) == [v]
    ensures p !in DuplicatedPrefixes(m, {p})
  {
  }
}
