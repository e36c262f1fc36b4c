/**
 * The user's personal affirmations, kept as one stored record holding a JSON
 * array of strings: reading it defensively, appending a trimmed text within
 * the capacity and length bounds, and removing an entry by index.
 */
module PersonalList {
  import opened JsText

  /** What `JSON.parse` yields, as far as the list logic can tell: an array
      of strings, or some other value. */
  datatype Json = JArray(items: seq<string>) | JNonArray

  /** The stored record: absent, not parsable as JSON, or parsed. */
  datatype Stored = Missing | Unparsable | Parsed(value: Json)

  /** Capacity of the personal list. */
  const MaxEntries := 50
  /** Longest accepted text, in UTF-16 code units after trimming. */
  const MaxLength := 200

  /** Why an addition stopped, or that it went through. */
  datatype AddOutcome = Rejected | Full | Added

  datatype AddResult = AddResult(stored: Stored, outcome: AddOutcome)

  /** Reading the list: the stored array, or the empty list when the record
      is missing, unparsable or not an array. */
  function ReadPersonal(stored: Stored): (list: seq<string>)
    ensures list != [] ==> stored == Parsed(JArray(list))
    ensures stored.Parsed? && stored.value.JArray? ==> list == stored.value.items
  {
    match stored
    case Parsed(JArray(items)) => items
    case _ => []
  }

  /** Storing `JSON.stringify(list)`: what is read back is the list itself. */
  function WritePersonal(list: seq<string>): (stored: Stored)
    ensures ReadPersonal(stored) == list
  {
    Parsed(JArray(list))
  }

  /** A text the add operation accepts once trimmed. */
  predicate AcceptableText(text: string)
  {
    text != [] && Utf16Length(text) <= MaxLength
  }

  /** Adding the text typed by the user: it is trimmed; an empty or over-long
      text is ignored, a full list is left as it is, and otherwise the trimmed
      text is appended and the list written back. */
  function AddPersonal(stored: Stored, input: string): (r: AddResult)
    ensures r.outcome.Rejected? <==> !AcceptableText(Trim(input))
    ensures r.outcome.Full? <==> AcceptableText(Trim(input)) && |ReadPersonal(stored)| >= MaxEntries
    ensures !r.outcome.Added? ==> r.stored == stored
    ensures r.outcome.Added? ==> ReadPersonal(r.stored) == ReadPersonal(stored) + [Trim(input)]
  {
    var text := Trim(input);
    if text == [] || Utf16Length(text) > MaxLength then AddResult(stored, Rejected)
    else
      var personal := ReadPersonal(stored);
      if |personal| >= MaxEntries then AddResult(stored, Full)
      else AddResult(WritePersonal(personal + [text]), Added)
  }

  /** Where `list.splice(index, 1)` starts for a list of length `n`: a
      negative index counts from the end and is clamped at 0, a large one is
      clamped at `n`. */
  function SpliceStart(n: nat, index: int): (start: nat)
    ensures start <= n
    ensures 0 <= index <= n ==> start == index
    ensures -(n as int) <= index < 0 ==> start == n + index
    ensures index > n ==> start == n
    ensures index < -(n as int) ==> start == 0
  {
    if index < 0 then (if n + index < 0 then 0 else n + index)
    else if index > n then n else index
  }

  /** `list.splice(index, 1)`: removes the element at the start position, if any. */
  function SpliceOne(list: seq<string>, index: int): (r: seq<string>)
    ensures SpliceStart(|list|, index) == |list| ==> r == list
    ensures SpliceStart(|list|, index) < |list| ==>
      && |r| == |list| - 1
      && multiset(r) + multiset{list[SpliceStart(|list|, index)]} == multiset(list)
      && (forall j :: 0 <= j < SpliceStart(|list|, index) ==> r[j] == list[j])
      && (forall j :: SpliceStart(|list|, index) <= j < |r| ==> r[j] == list[j + 1])
  {
    var start := SpliceStart(|list|, index);
    if start < |list| then
      assert list == list[..start] + [list[start]] + list[start + 1..];
      list[..start] + list[start + 1..]
    else list
  }

  /** Removing the entry at `index` and writing the list back. */
  function RemovePersonal(stored: Stored, index: int): (r: Stored)
    ensures r == WritePersonal(ReadPersonal(r))
    ensures 0 <= index < |ReadPersonal(stored)| ==>
      |ReadPersonal(r)| == |ReadPersonal(stored)| - 1
    ensures |ReadPersonal(stored)| <= index ==> ReadPersonal(r) == ReadPersonal(stored)
  {
    WritePersonal(SpliceOne(ReadPersonal(stored), index))
  }

  /** Removing an index in range deletes exactly that entry: the entries
      before it stay in place, the ones after it move down by one, and no
      other entry is lost. */
  lemma RemoveInRange(stored: Stored, index: int)
    requires 0 <= index < |ReadPersonal(stored)|
    ensures var before, after := ReadPersonal(stored), ReadPersonal(RemovePersonal(stored, index));
      && (forall j :: 0 <= j < index ==> after[j] == before[j])
      && (forall j :: index <= j < |after| ==> after[j] == before[j + 1])
      && multiset(after) + multiset{before[index]} == multiset(before)
  {
    var before := ReadPersonal(stored);
    assert before == before[..index] + [before[index]] + before[index + 1..];
  }

  /** A negative index counts from the end of the list. */
  lemma RemoveFromEnd(stored: Stored, index: int)
    requires -|ReadPersonal(stored)| <= index < 0
    ensures var before := ReadPersonal(stored);
      ReadPersonal(RemovePersonal(stored, index)) == before[..|before| + index] + before[|before| + index + 1..]
  {
  }

  /** Removing the entry just added restores the list read before the addition. */
  lemma RemoveUndoesAdd(stored: Stored, input: string)
    requires AddPersonal(stored, input).outcome.Added?
    ensures ReadPersonal(RemovePersonal(AddPersonal(stored, input).stored, |ReadPersonal(stored)|))
      == ReadPersonal(stored)
  {
  }

  /** A list every one of whose entries the add operation could have made,
      within the capacity. */
  predicate WellFormed(list: seq<string>)
  {
    |list| <= MaxEntries && forall k :: 0 <= k < |list| ==> AcceptableText(list[k])
  }

  /** Adding keeps a well-formed list well formed: at most 50 entries, each
      non-empty and at most 200 code units long. */
  lemma AddKeepsWellFormed(stored: Stored, input: string)
    requires WellFormed(ReadPersonal(stored))
    ensures WellFormed(ReadPersonal(AddPersonal(stored, input).stored))
  {
  }

  /** Removing keeps a well-formed list well formed. */
  lemma RemoveKeepsWellFormed(stored: Stored, index: int)
    requires WellFormed(ReadPersonal(stored))
    ensures WellFormed(ReadPersonal(RemovePersonal(stored, index)))
  {
  }

  /** A full list stays at 50 entries: the 51st addition is refused. */
  lemma FullListRefuses(stored: Stored, input: string)
    requires |ReadPersonal(stored)| == MaxEntries
    ensures |ReadPersonal(AddPersonal(stored, input).stored)| == MaxEntries
  {
  }
}
