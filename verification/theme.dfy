/** The colour palette the shell cycles through. */
module Theme {

  datatype Palette = Palette(primary: string, secondary: string, text: string)

  const Themes: seq<Palette> := [
    Palette("bg-purple-600", "bg-purple-500", "text-white"),
    Palette("bg-blue-600", "bg-blue-500", "text-white"),
    Palette("bg-green-600", "bg-green-500", "text-white"),
    Palette("bg-red-600", "bg-red-500", "text-white")
  ]

  /** The `changeTheme` updater: the next palette entry, wrapping to the first after the last. */
  function NextTheme(i: nat): (r: nat)
    ensures r < |Themes|
    ensures i < |Themes| - 1 ==> r == i + 1
    ensures i == |Themes| - 1 ==> r == 0
  {
    (i + 1) % |Themes|
  }

  /** The index after `k` presses of the palette button. */
  function Advance(i: nat, k: nat): nat
    decreases k
  {
    if k == 0 then i else NextTheme(Advance(i, k - 1))
  }

  /** From a valid index, `k` presses move the index `k` places round the palette. */
  lemma {:induction false} AdvanceWraps(i: nat, k: nat)
    requires i < |Themes|
    ensures Advance(i, k) == (i + k) % |Themes|
    decreases k
  {
    if k > 0 {
      AdvanceWraps(i, k - 1);
    }
  }

  /** As many presses as there are palettes bring the index back where it started. */
  lemma CycleReturns(i: nat)
    requires i < |Themes|
    ensures Advance(i, |Themes|) == i
  {
    AdvanceWraps(i, |Themes|);
  }
}
