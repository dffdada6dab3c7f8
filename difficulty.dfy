/**
 * The difficulty label lookup `{1: "Easy", 2: "Medium", 3: "Hard"}.get(d, "Unknown")`,
 * which the script writes out at each of its three uses; here it is defined once.
 */
module Difficulty {

  const Labels: map<int, string> := map[1 := "Easy", 2 := "Medium", 3 := "Hard"]

  const UnknownLabel: string := "Unknown"

  /** The label of a numeric difficulty level; total over all integers. */
  function Label(level: int): (s: string)
    ensures s == "Easy" <==> level == 1
    ensures s == "Medium" <==> level == 2
    ensures s == "Hard" <==> level == 3
    ensures s == "Unknown" <==> !(1 <= level <= 3)
  {
    if level in Labels then Labels[level] else UnknownLabel
  }
}
