/** Printing and parsing of dependency ids, and when printing is injective. */
module DependencyIds {
  import opened Identifiers

  const PROVIDER := "github-issues"
  const ARROW := "->"

  function PrintDependencyId(prefix: string, taskId: TaskId, dependsOn: TaskId): DependencyId {
    StableId(prefix + ":" + taskId.value + ARROW + dependsOn.value)
  }

  predicate ArrowAt(s: string, i: nat) {
    i + 1 < |s| && s[i] == '-' && s[i + 1] == '>'
  }

  ghost predicate ArrowFree(s: string) {
    forall i: nat :: !ArrowAt(s, i)
  }

  /** The pieces of `s` between arrows, scanning from the left as String.split does. */
  function SplitAtArrows(s: string): (parts: seq<string>)
    ensures |parts| >= 1
  {
    SplitFrom(s, 0)
  }

  function SplitFrom(s: string, i: nat): (parts: seq<string>)
    requires i <= |s|
    ensures |parts| >= 1
    decreases |s|, |s| - i
  {
    if i == |s| then [s]
    else if ArrowAt(s, i) then [s[..i]] + SplitFrom(s[i + 2..], 0)
    else SplitFrom(s, i + 1)
  }

  datatype ParsedId =
    | Parsed(taskId: TaskId, dependsOn: TaskId)
    | NotADependencyId
    | BlankTaskId  // creating a task id from a blank text throws

  /** Undoes the printing. */
  function ParseDependencyId(id: DependencyId): ParsedId {
    var prefix := PROVIDER + ":";
    if !(prefix <= id.value) then NotADependencyId
    else
      var parts := SplitAtArrows(id.value[|prefix|..]);
      if |parts| != 2 || parts[0] == "" || parts[1] == "" then NotADependencyId
      else if IsBlank(parts[0]) || IsBlank(parts[1]) then BlankTaskId
      else Parsed(StableId(parts[0]), StableId(parts[1]))
  }

  // ---- What splitting finds ----

  lemma {:induction false} SplitWithoutArrow(s: string, i: nat)
    requires i <= |s| && forall j: nat :: j >= i ==> !ArrowAt(s, j)
    ensures SplitFrom(s, i) == [s]
    decreases |s| - i
  {
    if i < |s| {
      SplitWithoutArrow(s, i + 1);
    }
  }

  lemma {:induction false} SplitAtFirst(s: string, i: nat, k: nat)
    requires i <= k && ArrowAt(s, k) && forall j: nat :: i <= j < k ==> !ArrowAt(s, j)
    ensures SplitFrom(s, i) == [s[..k]] + SplitFrom(s[k + 2..], 0)
    decreases k - i
  {
    if i < k {
      SplitAtFirst(s, i + 1, k);
    }
  }

  lemma {:induction false} SinglePart(s: string, i: nat)
    requires i <= |s| && |SplitFrom(s, i)| == 1
    ensures SplitFrom(s, i) == [s] && forall j: nat :: j >= i ==> !ArrowAt(s, j)
    decreases |s| - i
  {
    if i < |s| && !ArrowAt(s, i) {
      SinglePart(s, i + 1);
    }
  }

  lemma {:induction false} TwoParts(s: string, i: nat)
    requires i <= |s| && |SplitFrom(s, i)| == 2 && forall j: nat :: j < i ==> !ArrowAt(s, j)
    ensures var parts := SplitFrom(s, i);
            s == parts[0] + ARROW + parts[1] && ArrowFree(parts[0]) && ArrowFree(parts[1])
    decreases |s| - i
  {
    if i < |s| {
      if ArrowAt(s, i) {
        SinglePart(s[i + 2..], 0);
        forall j: nat
          ensures !ArrowAt(s[..i], j)
        {
          assert ArrowAt(s[..i], j) ==> ArrowAt(s, j);
        }
      } else {
        TwoParts(s, i + 1);
      }
    }
  }

  /** In `a` -> `b` with an arrow-free `a`, the first arrow is the one that was printed. */
  lemma FirstArrow(a: string, b: string)
    requires ArrowFree(a)
    ensures ArrowAt(a + ARROW + b, |a|) && forall j: nat :: j < |a| ==> !ArrowAt(a + ARROW + b, j)
  {
    forall j: nat | j < |a|
      ensures !ArrowAt(a + ARROW + b, j)
    {
      assert !ArrowAt(a, j);
    }
  }

  // ---- Main results ----

  /** What splitting the body of a printed id gives when the depending task's id has no arrow. */
  lemma BodyParts(a: string, b: string)
    requires ArrowFree(a)
    ensures SplitAtArrows(a + ARROW + b) == [a] + SplitAtArrows(b)
  {
    var body := a + ARROW + b;
    FirstArrow(a, b);
    SplitAtFirst(body, 0, |a|);
    assert body[..|a|] == a && body[|a| + 2..] == b;
  }

  /** The body of a printed id splits into the printed pair exactly when both are arrow-free. */
  lemma BodySplits(a: string, b: string)
    ensures SplitAtArrows(a + ARROW + b) == [a, b] <==> ArrowFree(a) && ArrowFree(b)
  {
    if ArrowFree(a) && ArrowFree(b) {
      BodyParts(a, b);
      SplitWithoutArrow(b, 0);
    }
    if SplitAtArrows(a + ARROW + b) == [a, b] {
      TwoParts(a + ARROW + b, 0);
    }
  }

  lemma PrintedBody(taskId: TaskId, dependsOn: TaskId)
    ensures var printed := PrintDependencyId(PROVIDER, taskId, dependsOn).value;
            var prefix := PROVIDER + ":";
            prefix <= printed && printed[|prefix|..] == taskId.value + ARROW + dependsOn.value
  {
    var prefix := PROVIDER + ":";
    var body := taskId.value + ARROW + dependsOn.value;
    assert PrintDependencyId(PROVIDER, taskId, dependsOn).value == prefix + body;
  }

  /** Printing then parsing gives the two ids back exactly when neither is blank or contains an arrow. */
  lemma RoundTrip(taskId: TaskId, dependsOn: TaskId)
    ensures ParseDependencyId(PrintDependencyId(PROVIDER, taskId, dependsOn)) == Parsed(taskId, dependsOn)
            <==> && !IsBlank(taskId.value) && ArrowFree(taskId.value)
                 && !IsBlank(dependsOn.value) && ArrowFree(dependsOn.value)
  {
    PrintedBody(taskId, dependsOn);
    BodySplits(taskId.value, dependsOn.value);
  }

  /** What does not parse: another prefix, another number of arrows, an empty id; a blank id raises an error. */
  lemma OtherwiseNotParsed(id: DependencyId)
    ensures !(PROVIDER + ":" <= id.value) ==> ParseDependencyId(id).NotADependencyId?
    ensures ParseDependencyId(id).BlankTaskId? <==>
              exists a, b :: id == PrintDependencyId(PROVIDER, StableId(a), StableId(b)) && ArrowFree(a) && ArrowFree(b)
                          && a != "" && b != "" && (IsBlank(a) || IsBlank(b))
  {
    if a, b :| id == PrintDependencyId(PROVIDER, StableId(a), StableId(b)) && ArrowFree(a) && ArrowFree(b)
               && a != "" && b != "" && (IsBlank(a) || IsBlank(b)) {
      PrintedBody(StableId(a), StableId(b));
      BodySplits(a, b);
    }
    if ParseDependencyId(id).BlankTaskId? {
      var prefix := PROVIDER + ":";
      var body := id.value[|prefix|..];
      TwoParts(body, 0);
      var parts := SplitAtArrows(body);
      assert id.value == prefix + (parts[0] + ARROW + parts[1]);
      assert id == PrintDependencyId(PROVIDER, StableId(parts[0]), StableId(parts[1]));
    }
  }

  /** Parsing then printing: whatever parses is the printed form of what it parses to. */
  lemma ParsedIsPrinted(id: DependencyId)
    requires ParseDependencyId(id).Parsed?
    ensures var Parsed(taskId, dependsOn) := ParseDependencyId(id);
            PrintDependencyId(PROVIDER, taskId, dependsOn) == id
  {
    var prefix := PROVIDER + ":";
    var body := id.value[|prefix|..];
    assert id.value == prefix + body;
    TwoParts(body, 0);
    var Parsed(taskId, dependsOn) := ParseDependencyId(id);
    assert PrintDependencyId(PROVIDER, taskId, dependsOn).value == prefix + (taskId.value + ARROW + dependsOn.value);
  }

  /** Printing is injective as soon as the depending tasks' ids contain no arrow. */
  lemma PrintInjective(prefix: string, a: TaskId, b: TaskId, c: TaskId, d: TaskId)
    requires ArrowFree(a.value) && ArrowFree(c.value)
    requires PrintDependencyId(prefix, a, b) == PrintDependencyId(prefix, c, d)
    ensures a == c && b == d
  {
    var body, other := a.value + ARROW + b.value, c.value + ARROW + d.value;
    var head := prefix + ":";
    assert PrintDependencyId(prefix, a, b).value == head + body;
    assert PrintDependencyId(prefix, c, d).value == head + other;
    assert body == (head + body)[|head|..] == (head + other)[|head|..] == other;
    FirstArrow(a.value, b.value);
    FirstArrow(c.value, d.value);
    assert |a.value| == |c.value|;
    assert a.value == body[..|a.value|] == c.value;
    assert b.value == body[|a.value| + 2..] == d.value;
  }
}
