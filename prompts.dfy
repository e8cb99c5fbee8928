/** The prompts sent to the model. Each template's fixed wording is left
    out; a prompt is the template together with the values it embeds. */
module Prompts {
  import opened Common
  import opened Text
  import opened LlmClient

  datatype Prompt =
    | QaPrompt(context: string, question: string)
    | TermPrompt(term: string, context: string)
    | KeypointsPrompt(sectionName: string, content: string)
    | PaperSummaryPrompt(title: string, content: string)
    | SectionSummaryPrompt(sectionName: string, content: string)
    | InnovationPrompt(title: string, content: string)
    | MethodologyPrompt(content: string)
    | FindingsPrompt(content: string)

  /** The model behind `get_model(task)(prompt)`: the answer, or the text of
      the exception the call raised. */
  type Llm = (Profile, Prompt) -> Result<string>

  /** The model call for `task`. */
  function Ask(llm: Llm, task: string, prompt: Prompt): Result<string>
  {
    llm(ProfileFor(task), prompt)
  }

  // ----- list answers -----

  /** The bullet marks `startswith(('-', '•', '*'))` tests for. */
  const Bullets: seq<string> := ["-", "\U{2022}", "*"]

  /** What one stripped line of a list answer contributes: the text after its
      bullet, the line itself when it is non-empty and starts with none of
      `skip`, or nothing. */
  function ListItem(line: string, skip: seq<string>): (r: Option<string>)
    ensures StartsWithAny(line, Bullets) ==> r == Some(Strip(line[1..]))
    ensures !StartsWithAny(line, Bullets) && StartsWithAny(line, skip) ==> r == None
    ensures line == [] ==> r == None
    ensures line != [] && !StartsWithAny(line, Bullets) && !StartsWithAny(line, skip) ==> r == Some(line)
  {
    if StartsWithAny(line, Bullets) then
      Some(Strip(line[1..]))
    else if line != [] && !StartsWithAny(line, skip) then Some(line)
    else None
  }

  /** The items of every line, in order. */
  function ItemsFrom(lines: seq<string>, skip: seq<string>): seq<string>
    decreases |lines|
  {
    if lines == [] then []
    else
      match ListItem(Strip(lines[0]), skip)
      case Some(x) => [x] + ItemsFrom(lines[1..], skip)
      case None => ItemsFrom(lines[1..], skip)
  }

  /** The items of `response`, at most `cap` of them. */
  function ListItems(response: string, skip: seq<string>, cap: nat): seq<string>
  {
    Take(ItemsFrom(Split(response, '\n'), skip), cap)
  }

  /** Every item comes from a line, and every line that yields an item is
      represented. */
  lemma {:induction false} ItemsFromSpec(lines: seq<string>, skip: seq<string>)
    ensures forall x :: x in ItemsFrom(lines, skip) ==> exists l :: l in lines && ListItem(Strip(l), skip) == Some(x)
    ensures forall l :: l in lines && ListItem(Strip(l), skip).Some? ==> ListItem(Strip(l), skip).value in ItemsFrom(lines, skip)
    decreases |lines|
  {
    if lines != [] {
      ItemsFromSpec(lines[1..], skip);
      assert forall l :: l in lines <==> l == lines[0] || l in lines[1..];
    }
  }

  /** A list answer holds at most `cap` items, each the item of one of its lines. */
  lemma ListItemsSpec(response: string, skip: seq<string>, cap: nat)
    ensures |ListItems(response, skip, cap)| <= cap
    ensures forall x :: x in ListItems(response, skip, cap) ==>
      exists l :: l in Split(response, '\n') && ListItem(Strip(l), skip) == Some(x)
  {
    var all := ItemsFrom(Split(response, '\n'), skip);
    ItemsFromSpec(Split(response, '\n'), skip);
    assert forall x :: x in ListItems(response, skip, cap) ==> x in all;
  }

  /** One step of the parse loop: the item of line `i`, if any, moves from the
      part still to scan to the part collected. */
  lemma ItemsAdvance(lines: seq<string>, skip: seq<string>, items: seq<string>, i: nat)
    requires i < |lines|
    ensures var it := ListItem(Strip(lines[i]), skip);
      items + ItemsFrom(lines[i..], skip) ==
      (if it.Some? then items + [it.value] else items) + ItemsFrom(lines[i + 1..], skip)
  {
    var it := ListItem(Strip(lines[i]), skip);
    assert lines[i..][1..] == lines[i + 1..];
    if it.Some? {
      assert ItemsFrom(lines[i..], skip) == [it.value] + ItemsFrom(lines[i + 1..], skip);
    }
  }

  /** The parse loop shared by `get_section_keypoints` and
      `_extract_main_findings`, followed by the `[:cap]` cut. */
  method ParseList(response: string, skip: seq<string>, cap: nat) returns (items: seq<string>)
    ensures items == ListItems(response, skip, cap)
  {
    items := ParseLines(Split(response, '\n'), skip);
    items := Take(items, cap);
  }

  /** `for line in lines: line = line.strip(); ...` collecting every item. */
  method ParseLines(lines: seq<string>, skip: seq<string>) returns (items: seq<string>)
    ensures items == ItemsFrom(lines, skip)
  {
    items := [];
    var i := 0;
    while i < |lines|
      invariant 0 <= i <= |lines|
      invariant items + ItemsFrom(lines[i..], skip) == ItemsFrom(lines, skip)
    {
      ItemsAdvance(lines, skip, items, i);
      var item := ListItem(Strip(lines[i]), skip);
      if item.Some? {
        items := items + [item.value];
      }
      i := i + 1;
    }
    assert lines[i..] == [];
  }
}
