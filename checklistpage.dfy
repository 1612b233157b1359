/**
 * The interactive checklist page: each question card carries three checkboxes
 * (OK, N/A, PD), the page keeps the set of completed question numbers and
 * enables the submit button only when every question is completed.
 * Question `q` (numbered from 1) is card `q - 1`.
 */
module ChecklistPage {

  datatype Box = OK | NA | PD

  /** The `checked` flags of one card's checkboxes. */
  datatype Card = Card(ok: bool, na: bool, pd: bool)

  /** What a card shows: nothing selected, or one box. */
  datatype Selection = Unselected | Selected(box: Box)

  function Checked(c: Card, b: Box): bool {
    match b
    case OK => c.ok
    case NA => c.na
    case PD => c.pd
  }

  /** The card with box `b` set to `v`. */
  function SetBox(c: Card, b: Box, v: bool): (r: Card)
    ensures Checked(r, b) == v
    ensures forall b' :: b' != b ==> Checked(r, b') == Checked(c, b')
  {
    match b
    case OK => c.(ok := v)
    case NA => c.(na := v)
    case PD => c.(pd := v)
  }

  /** The card with every box other than `b` cleared and `b` as it was. */
  function Only(c: Card, b: Box): (r: Card)
    ensures Checked(r, b) == Checked(c, b)
    ensures forall b' :: b' != b ==> !Checked(r, b')
  {
    Card(b == OK && c.ok, b == NA && c.na, b == PD && c.pd)
  }

  predicate AtMostOne(c: Card) {
    !(c.ok && c.na) && !(c.ok && c.pd) && !(c.na && c.pd)
  }

  predicate AnyChecked(c: Card) {
    c.ok || c.na || c.pd
  }

  /** What a card with at most one box checked shows. */
  function SelectionOf(c: Card): (s: Selection)
    requires AtMostOne(c)
    ensures s == Unselected <==> !AnyChecked(c)
    ensures s.Selected? ==> Checked(c, s.box) && (forall b :: b != s.box ==> !Checked(c, b))
  {
    if c.ok then Selected(OK) else if c.na then Selected(NA) else if c.pd then Selected(PD) else Unselected
  }

  /** The card-click cycle: none, OK, N/A, PD, none again. */
  function Next(s: Selection): Selection {
    match s
    case Unselected => Selected(OK)
    case Selected(OK) => Selected(NA)
    case Selected(NA) => Selected(PD)
    case Selected(PD) => Unselected
  }

  /**
   * The completed set agrees with the cards: it holds exactly the numbers of
   * the questions with a box checked, and no card has two boxes checked.
   */
  ghost predicate Synced(cards: seq<Card>, completed: set<int>) {
    && (forall i :: 0 <= i < |cards| ==> AtMostOne(cards[i]))
    && (forall q :: q in completed <==> 1 <= q <= |cards| && AnyChecked(cards[q - 1]))
  }

  /** The question numbers 1..n. */
  function Questions(n: nat): (r: set<int>)
    ensures forall q :: q in r <==> 1 <= q <= n
    ensures |r| == n
  {
    if n == 0 then {}
    else
      var r := Questions(n - 1) + {n};
      assert n !in Questions(n - 1);
      r
  }

  /** A subset of the question numbers with none missing is all of them, and one with a gap is smaller. */
  lemma {:induction false} SubsetOfQuestions(s: set<int>, n: nat)
    requires s <= Questions(n)
    ensures |s| <= n
    ensures |s| == n <==> s == Questions(n)
    ensures |s| == n <==> forall q :: 1 <= q <= n ==> q in s
  {
    if n > 0 {
      var s' := s - {n};
      assert s' <= Questions(n - 1);
      SubsetOfQuestions(s', n - 1);
      if n in s {
        assert s == s' + {n} && n !in s';
      } else {
        assert s == s';
      }
      if |s| == n {
        assert n in s;
      }
    } else {
      assert s <= Questions(0);
    }
  }

  /** Every question is completed exactly when the completed set has one entry per question. */
  lemma AllCompletedIffComplete(cards: seq<Card>, completed: set<int>)
    requires Synced(cards, completed)
    ensures |completed| == |cards| <==> forall i :: 0 <= i < |cards| ==> AnyChecked(cards[i])
  {
    assert completed <= Questions(|cards|);
    SubsetOfQuestions(completed, |cards|);
    if forall i :: 0 <= i < |cards| ==> AnyChecked(cards[i]) {
      assert forall q :: 1 <= q <= |cards| ==> q in completed by {
        forall q | 1 <= q <= |cards| ensures q in completed {
          assert AnyChecked(cards[q - 1]);
        }
      }
    } else {
      var i :| 0 <= i < |cards| && !AnyChecked(cards[i]);
      assert i + 1 !in completed;
    }
  }

  /** Four card clicks bring a card back to what it showed. */
  lemma {:induction false} CycleReturns(s: Selection)
    ensures Next(Next(Next(Next(s)))) == s
    ensures Next(s) != s
  {
    match s
    case Unselected =>
    case Selected(b) => match b { case OK => case NA => case PD => }
  }

  /** The page state of `checklist.js`. */
  class Page {
    /** `totalPreguntas`: the number of question cards. */
    const total: nat
    var cards: seq<Card>
    /** `preguntasCompletadas`. */
    var completed: set<int>
    /** `submitBtn.disabled`. */
    var submitDisabled: bool

    ghost predicate Valid()
      reads this
    {
      |cards| == total && Synced(cards, completed)
    }

    /** The page as loaded: nothing checked, nothing completed. */
    constructor (total: nat, submitDisabled: bool)
      ensures Valid() && this.total == total && completed == {}
      ensures |cards| == total && forall i :: 0 <= i < total ==> cards[i] == Card(false, false, false)
      ensures this.submitDisabled == submitDisabled
    {
      this.total := total;
      cards := seq(total, _ => Card(false, false, false));
      completed := {};
      this.submitDisabled := submitDisabled;
    }

    /** `updateProgress`: the submit button is disabled unless every question is completed. */
    method UpdateProgress()
      modifies this
      ensures cards == old(cards) && completed == old(completed)
      ensures submitDisabled == (|completed| != total)
    {
      var completadas := |completed|;
      submitDisabled := completadas != total;
    }

    /**
     * `handleCheckbox(checkbox, q)` after box `b` of card `q` changed: the
     * card's other boxes are cleared, `q` is added to or removed from the
     * completed set according to `b`, and the progress is updated. Every other
     * card must already agree with the completed set.
     */
    method HandleCheckbox(b: Box, q: int)
      requires 1 <= q <= total && |cards| == total
      requires forall i :: 0 <= i < |cards| && i != q - 1 ==> AtMostOne(cards[i])
      requires forall p :: p != q ==> (p in completed <==> 1 <= p <= total && AnyChecked(cards[p - 1]))
      modifies this
      ensures cards == old(cards)[q - 1 := Only(old(cards)[q - 1], b)]
      ensures completed == if Checked(old(cards)[q - 1], b) then old(completed) + {q} else old(completed) - {q}
      ensures submitDisabled == (|completed| != total)
      ensures Valid()
    {
      cards := cards[q - 1 := Only(cards[q - 1], b)];
      if Checked(cards[q - 1], b) {
        completed := completed + {q};
      } else {
        completed := completed - {q};
      }
      UpdateProgress();
    }

    /** A click on box `b` of card `q`: the browser toggles it, then `handleCheckbox` runs. */
    method ClickCheckbox(b: Box, q: int)
      requires Valid() && 1 <= q <= total
      modifies this
      ensures Valid()
      ensures forall i :: 0 <= i < total && i != q - 1 ==> cards[i] == old(cards[i])
      ensures SelectionOf(cards[q - 1]) == if old(SelectionOf(cards[q - 1])) == Selected(b) then Unselected else Selected(b)
      ensures submitDisabled == (|completed| != total)
    {
      var c := cards[q - 1];
      cards := cards[q - 1 := SetBox(c, b, !Checked(c, b))];
      HandleCheckbox(b, q);
    }

    /**
     * A click on card `q`; `insideOption` says whether its target lies inside a
     * checkbox option, which the card handler leaves to the checkbox. Otherwise
     * the card moves one step along the cycle.
     */
    method CardClick(q: int, insideOption: bool)
      requires Valid() && 1 <= q <= total
      modifies this
      ensures Valid()
      ensures insideOption ==> cards == old(cards) && completed == old(completed) && submitDisabled == old(submitDisabled)
      ensures !insideOption ==> SelectionOf(cards[q - 1]) == Next(old(SelectionOf(cards[q - 1])))
      ensures !insideOption ==> forall i :: 0 <= i < total && i != q - 1 ==> cards[i] == old(cards[i])
      ensures !insideOption ==> submitDisabled == (|completed| != total)
    {
      if insideOption {
        return;
      }
      var c := cards[q - 1];
      if !c.ok && !c.na && !c.pd {
        ClickCheckbox(OK, q);
      } else if c.ok {
        ClickCheckbox(NA, q);
      } else if c.na {
        ClickCheckbox(PD, q);
      } else if c.pd {
        cards := cards[q - 1 := c.(pd := false)];
        HandleCheckbox(PD, q);
      }
    }

    /**
     * The submit listener: the submission is prevented unless every question is
     * completed; otherwise the button is disabled while the form is sent.
     */
    method Submit() returns (prevented: bool)
      requires Valid()
      modifies this
      ensures cards == old(cards) && completed == old(completed)
      ensures prevented <==> exists i :: 0 <= i < total && !AnyChecked(cards[i])
      ensures prevented ==> submitDisabled == old(submitDisabled)
      ensures !prevented ==> submitDisabled
    {
      AllCompletedIffComplete(cards, completed);
      if |completed| != total {
        return true;
      }
      submitDisabled := true;
      return false;
    }
  }
}
