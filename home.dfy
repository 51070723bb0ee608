/** The greeting on the home page, chosen by the hour of the local clock. */
module Home {

  const Morning := "Good morning"
  const Afternoon := "Good afternoon"
  const Evening := "Good evening"

  /** `getGreeting()` with `hour` standing for `new Date().getHours()`. */
  function Greeting(hour: nat): (g: string)
    ensures g == Morning <==> hour < 12
    ensures g == Afternoon <==> 12 <= hour < 17
    ensures g == Evening <==> hour >= 17
  {
    if hour < 12 then Morning
    else if hour < 17 then Afternoon
    else Evening
  }

  /** The position of a greeting in the course of the day. */
  function Rank(g: string): nat {
    if g == Morning then 0 else if g == Afternoon then 1 else 2
  }

  /** Every hour gets one of the three greetings. */
  lemma GreetingIsOneOfThree(hour: nat)
    ensures Greeting(hour) in {Morning, Afternoon, Evening}
  {
  }

  /** As the hour grows the greeting never goes back to an earlier one. */
  lemma GreetingMonotone(h1: nat, h2: nat)
    requires h1 <= h2
    ensures Rank(Greeting(h1)) <= Rank(Greeting(h2))
  {
  }
}
