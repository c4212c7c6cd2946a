/**
 The rock-paper-scissors rule of chifoumi.py, which decides who plays first.
 Choices are the strings the program uses; `DetermineWinner` accepts any two
 strings, as the Python function does.
 */
module Chifoumi {

  const CHOICES: seq<string> := ["rock", "paper", "scissors"]

  lemma ChoicesDistinct()
    ensures |CHOICES| == 3
    ensures forall i, j :: 0 <= i < j < |CHOICES| ==> CHOICES[i] != CHOICES[j]
  {
  }

  /** `random_chifoumi`: `random.choice(CHOICES)`. The random index drawn
      below `len(CHOICES)` is the parameter `tirage`. */
  function RandomChifoumi(tirage: nat): (c: string)
    requires tirage < |CHOICES|
    ensures c in CHOICES
  {
    CHOICES[tirage]
  }

  /** Every choice can be drawn. */
  lemma RandomChifoumiCoversChoices(c: string)
    requires c in CHOICES
    ensures exists tirage :: 0 <= tirage < |CHOICES| && RandomChifoumi(tirage) == c
  {
    var i :| 0 <= i < |CHOICES| && CHOICES[i] == c;
    assert RandomChifoumi(i) == c;
  }

  /** `determine_winner`, from the point of view of the first argument. */
  function DetermineWinner(playerChoice: string, enemyChoice: string): (r: string)
    ensures r == "draw" || r == "player" || r == "enemy"
    ensures r == "draw" <==> playerChoice == enemyChoice
    ensures (playerChoice, enemyChoice) == ("rock", "scissors") ==> r == "player"
    ensures (playerChoice, enemyChoice) == ("paper", "rock") ==> r == "player"
    ensures (playerChoice, enemyChoice) == ("scissors", "paper") ==> r == "player"
  {
    if playerChoice == enemyChoice then "draw"
    else if || (playerChoice == "rock" && enemyChoice == "scissors")
            || (playerChoice == "paper" && enemyChoice == "rock")
            || (playerChoice == "scissors" && enemyChoice == "paper")
    then "player"
    else "enemy"
  }

  /** The rule as a cycle over `CHOICES`: the choice at index `i` beats the
      one at index `(i + 2) % 3` and loses to the one at `(i + 1) % 3`. */
  lemma {:induction false} DetermineWinnerIsCyclic(i: nat, j: nat)
    requires i < |CHOICES| && j < |CHOICES|
    ensures DetermineWinner(CHOICES[i], CHOICES[j]) ==
      if i == j then "draw"
      else if j == (i + 2) % 3 then "player"
      else "enemy"
  {
    ChoicesDistinct();
    if i != j {
      assert CHOICES[i] != CHOICES[j];
    }
  }

  /** Swapping two different valid choices swaps the winner. */
  lemma {:induction false} DetermineWinnerAntisymmetric(a: string, b: string)
    requires a in CHOICES && b in CHOICES && a != b
    ensures DetermineWinner(a, b) == "player" <==> DetermineWinner(b, a) == "enemy"
    ensures DetermineWinner(a, b) == "enemy" <==> DetermineWinner(b, a) == "player"
  {
    var i :| 0 <= i < |CHOICES| && CHOICES[i] == a;
    var j :| 0 <= j < |CHOICES| && CHOICES[j] == b;
    DetermineWinnerIsCyclic(i, j);
    DetermineWinnerIsCyclic(j, i);
  }

  /** Each valid choice beats exactly one choice and loses to exactly one. */
  lemma {:induction false} EachChoiceBeatsOneLosesOne(a: string)
    requires a in CHOICES
    ensures exists b :: b in CHOICES && DetermineWinner(a, b) == "player"
    ensures forall b, b' ::
      (b in CHOICES && b' in CHOICES && DetermineWinner(a, b) == "player" && DetermineWinner(a, b') == "player")
      ==> b == b'
    ensures exists b :: b in CHOICES && DetermineWinner(a, b) == "enemy"
    ensures forall b, b' ::
      (b in CHOICES && b' in CHOICES && DetermineWinner(a, b) == "enemy" && DetermineWinner(a, b') == "enemy")
      ==> b == b'
  {
    var i :| 0 <= i < |CHOICES| && CHOICES[i] == a;
    DetermineWinnerIsCyclic(i, (i + 2) % 3);
    DetermineWinnerIsCyclic(i, (i + 1) % 3);
    forall b, b' |
      (b in CHOICES && b' in CHOICES && DetermineWinner(a, b) == DetermineWinner(a, b')
       && DetermineWinner(a, b) != "draw")
      ensures b == b'
    {
      var j :| 0 <= j < |CHOICES| && CHOICES[j] == b;
      var j' :| 0 <= j' < |CHOICES| && CHOICES[j'] == b';
      DetermineWinnerIsCyclic(i, j);
      DetermineWinnerIsCyclic(i, j');
    }
  }

  /** Outside the three choices the rule still answers: any pair that is
      neither equal nor one of the three winning pairs goes to the enemy. */
  lemma UnknownChoiceLoses(a: string)
    requires a !in CHOICES
    ensures DetermineWinner(a, "rock") == "enemy"
    ensures DetermineWinner("rock", a) == "enemy"
  {
  }
}
