/** The fact list of the card (src/main.ts, the custom-facts part of `run()`): a mandatory
    event-type fact, then one fact per complete record of the user's custom-facts list. */
module Facts {
  import opened Results
  import opened Strings

  /** A label/value row of the card's fact table. */
  datatype Fact = Fact(name: string, value: string)

  /** One element of the list the custom-facts text parses to. `Nullish` is `null` or
      `undefined`, on which reading a property throws; anything else is an `Item` whose
      `name` and `value` properties are either undefined (`None`) or defined, given as the
      text JavaScript's `+` turns them into (a defined `null` reads as "null"). */
  datatype Entry = Nullish | Item(name: Option<string>, value: Option<string>)

  /** What parsing the custom-facts text yields: a parse error, a value that is not an
      array, or an array of entries. */
  datatype Parsed = ParseError | NotAList | List(entries: seq<Entry>)

  const EventTypeLabel := "Event type:"

  /** The mandatory first fact: the upper-cased event name in code formatting; an unset
      event name reads as "undefined". */
  function EventFact(eventName: Option<string>): (f: Fact)
    ensures f.name == EventTypeLabel
    ensures |f.value| >= 2 && f.value[0] == '`' && f.value[|f.value| - 1] == '`'
    ensures eventName.Some? ==> f.value[1..|f.value| - 1] == ToUpper(eventName.value)
    ensures eventName.None? ==> f.value == "`undefined`"
  {
    var shown := if eventName.Some? then ToUpper(eventName.value) else "undefined";
    assert ("`" + shown + "`")[1..|shown| + 1] == shown;
    Fact(EventTypeLabel, "`" + shown + "`")
  }

  /** Custom facts are read only when the input is non-empty and not "null" in any letter case. */
  predicate ReadsCustomFacts(customFacts: string) {
    customFacts != "" && ToLower(customFacts) != "null"
  }

  /** An entry with both properties defined. */
  predicate Complete(e: Entry) {
    e.Item? && e.name.Some? && e.value.Some?
  }

  /** The fact a complete entry contributes: its name with a colon, its value in code formatting. */
  function FactOf(e: Entry): (f: Fact)
    requires Complete(e)
  {
    Fact(e.name.value + ":", "`" + e.value.value + "`")
  }

  /** The facts the entries contribute, in input order; incomplete entries contribute nothing. */
  function FactsOf(entries: seq<Entry>): (facts: seq<Fact>) {
    if entries == [] then []
    else
      var last := entries[|entries| - 1];
      FactsOf(entries[..|entries| - 1]) + (if Complete(last) then [FactOf(last)] else [])
  }

  /** The number of complete entries. */
  function CountComplete(entries: seq<Entry>): (n: nat) {
    if entries == [] then 0 else (if Complete(entries[0]) then 1 else 0) + CountComplete(entries[1..])
  }

  /** Index of the first `Nullish` entry, or the length when there is none: the loop over the
      list stops there, because the property read throws and the error is swallowed. */
  function FirstNullish(entries: seq<Entry>): (n: nat)
    ensures n <= |entries|
    ensures forall j :: 0 <= j < n ==> entries[j].Item?
    ensures n < |entries| ==> entries[n].Nullish?
  {
    if entries == [] || entries[0].Nullish? then 0 else 1 + FirstNullish(entries[1..])
  }

  /** The fact list `run()` hands to the card. */
  function FactList(eventName: Option<string>, customFacts: string, parsed: Parsed): (facts: seq<Fact>) {
    [EventFact(eventName)]
      + if ReadsCustomFacts(customFacts) && parsed.List?
        then FactsOf(parsed.entries[..FirstNullish(parsed.entries)])
        else []
  }

  /** Builds the fact list as the source does: push the event fact, then walk the parsed list,
      pushing one fact per complete entry and counting them. */
  method BuildFacts(eventName: Option<string>, customFacts: string, parsed: Parsed)
    returns (facts: seq<Fact>, added: nat)
    ensures facts == FactList(eventName, customFacts, parsed)
    ensures added == |facts| - 1
  {
    facts := [EventFact(eventName)];
    added := 0;
    if ReadsCustomFacts(customFacts) && parsed.List? {
      var entries := parsed.entries;
      var i := 0;
      while i < |entries|
        invariant i <= FirstNullish(entries)
        invariant facts == [EventFact(eventName)] + FactsOf(entries[..i])
        invariant added == |facts| - 1
      {
        var e := entries[i];
        if e.Nullish? {
          break;
        }
        if e.name.Some? && e.value.Some? {
          facts := facts + [Fact(e.name.value + ":", "`" + e.value.value + "`")];
          added := added + 1;
        }
        assert entries[..i + 1][..i] == entries[..i];
        i := i + 1;
      }
    }
  }

  lemma {:induction false} FactsOfAppend(s: seq<Entry>, t: seq<Entry>)
    ensures FactsOf(s + t) == FactsOf(s) + FactsOf(t)
    decreases |t|
  {
    if t == [] {
      assert s + t == s;
    } else {
      var t' := t[..|t| - 1];
      assert (s + t)[..|s + t| - 1] == s + t';
      FactsOfAppend(s, t');
    }
  }

  /** One fact per complete entry. */
  lemma {:induction false} FactsOfLength(s: seq<Entry>)
    ensures |FactsOf(s)| == CountComplete(s)
  {
    if s != [] {
      FactsOfLength(s[1..]);
      FactsOfAppend([s[0]], s[1..]);
      assert [s[0]] + s[1..] == s;
      assert [s[0]][..0] == [];
    }
  }

  /** A complete entry's fact sits right after the facts of the entries before it. */
  lemma FactsOfAt(s: seq<Entry>, j: nat)
    requires j < |s| && Complete(s[j])
    ensures |FactsOf(s[..j])| < |FactsOf(s)|
    ensures FactsOf(s)[|FactsOf(s[..j])|] == FactOf(s[j])
  {
    assert s[..j + 1][..j] == s[..j];
    FactsOfAppend(s[..j + 1], s[j + 1..]);
    assert s[..j + 1] + s[j + 1..] == s;
  }

  /** Every custom fact has a colon-terminated label and a value in code formatting. */
  lemma {:induction false} FactsOfShape(s: seq<Entry>)
    ensures forall f :: f in FactsOf(s) ==>
      |f.name| > 0 && f.name[|f.name| - 1] == ':' &&
      |f.value| >= 2 && f.value[0] == '`' && f.value[|f.value| - 1] == '`'
  {
    if s != [] {
      FactsOfShape(s[..|s| - 1]);
    }
  }

  /** The list starts with the event fact and holds one more fact per complete entry read;
      when custom facts are not read, fail to parse or are not a list, it is the event fact alone. */
  lemma FactListShape(eventName: Option<string>, customFacts: string, parsed: Parsed)
    ensures var facts := FactList(eventName, customFacts, parsed);
      && facts[0] == EventFact(eventName)
      && (!ReadsCustomFacts(customFacts) || !parsed.List? ==> facts == [EventFact(eventName)])
      && (ReadsCustomFacts(customFacts) && parsed.List? ==>
            |facts| == 1 + CountComplete(parsed.entries[..FirstNullish(parsed.entries)]))
  {
    if ReadsCustomFacts(customFacts) && parsed.List? {
      FactsOfLength(parsed.entries[..FirstNullish(parsed.entries)]);
    }
  }
}
