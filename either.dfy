/**
  Either<A, B>: holds a value of type A (a Left) or one of type B (a Right).
  `doInDatabase` returns its result as a Left and an SQLException as a Right.
*/
module Either {
  import opened Optional

  datatype Either<A, B> = Left(leftValue: A) | Right(rightValue: B)
  {
    predicate IsLeft() { Left? }

    predicate IsRight() { Right? }

    /** left(): the Left value, or empty on a Right. */
    function LeftOption(): (o: Option<A>)
      ensures o.Some? <==> IsLeft()
      ensures o.Some? ==> this == Left(o.value)
    {
      match this
      case Left(a) => Some(a)
      case Right(_) => None
    }

    /** right(): the Right value, or empty on a Left. */
    function RightOption(): (o: Option<B>)
      ensures o.Some? <==> IsRight()
      ensures o.Some? ==> this == Right(o.value)
    {
      match this
      case Left(_) => None
      case Right(b) => Some(b)
    }

    /**
      handle(leftConsumer, rightConsumer): hands the held value to the consumer of
      its variant. A consumer is modelled by the effect it has on the value it
      accepts; the result lists the consumer calls made, in order.
    */
    function Handle<E>(leftConsumer: A -> E, rightConsumer: B -> E): (calls: seq<E>)
      ensures |calls| == 1
      ensures IsLeft() ==> calls[0] == leftConsumer(leftValue)
      ensures IsRight() ==> calls[0] == rightConsumer(rightValue)
    {
      match this
      case Left(a) => [leftConsumer(a)]
      case Right(b) => [rightConsumer(b)]
    }

    /** toString(), given how the held value is rendered. */
    function ToString(showLeft: A -> string, showRight: B -> string): (s: string)
      ensures |s| >= 6 && (IsRight() ==> |s| >= 7)
      ensures IsLeft() ==> s[..5] == "Left(" && s[5..|s| - 1] == showLeft(leftValue)
      ensures IsRight() ==> s[..6] == "Right(" && s[6..|s| - 1] == showRight(rightValue)
      ensures s[|s| - 1] == ')'
    {
      match this
      case Left(a) => "Left(" + showLeft(a) + ")"
      case Right(b) => "Right(" + showRight(b) + ")"
    }
  }

  /** equals(): same variant and equal held values. */
  function Equals<A(==), B(==)>(x: Either<A, B>, y: Either<A, B>): (eq: bool)
    ensures eq <==> x == y
  {
    match (x, y)
    case (Left(a), Left(a')) => a == a'
    case (Right(b), Right(b')) => b == b'
    case _ => false
  }

  /** left(v) is a Left and not a Right, and its accessors give v and nothing. */
  lemma LeftIsLeft<A, B>(v: A)
    ensures var e: Either<A, B> := Left(v);
            e.IsLeft() && !e.IsRight() && e.LeftOption() == Some(v) && e.RightOption() == None
  {
  }

  /** right(v) is a Right and not a Left, and its accessors give nothing and v. */
  lemma RightIsRight<A, B>(v: B)
    ensures var e: Either<A, B> := Right(v);
            e.IsRight() && !e.IsLeft() && e.RightOption() == Some(v) && e.LeftOption() == None
  {
  }

  /** Exactly one of the two tags holds on every value. */
  lemma ExactlyOneTag<A, B>(e: Either<A, B>)
    ensures e.IsLeft() != e.IsRight()
  {
  }

  /** handle on a Left never calls the right consumer: replacing it changes nothing. */
  lemma HandleLeftIgnoresRightConsumer<A, B, E>(v: A, l: A -> E, r: B -> E, r': B -> E)
    ensures Left(v).Handle(l, r) == Left(v).Handle(l, r') == [l(v)]
  {
  }

  /** handle on a Right never calls the left consumer: replacing it changes nothing. */
  lemma HandleRightIgnoresLeftConsumer<A, B, E>(v: B, l: A -> E, l': A -> E, r: B -> E)
    ensures Right(v).Handle(l, r) == Right(v).Handle(l', r) == [r(v)]
  {
  }

  /** Left(a) equals Left(b) exactly when a == b, and likewise for Right. */
  lemma EqualsOnSameVariant<A, B>(a: A, a': A, b: B, b': B)
    ensures Equals<A, B>(Left(a), Left(a')) <==> a == a'
    ensures Equals<A, B>(Right(b), Right(b')) <==> b == b'
  {
  }

  /** A Left never equals a Right, in either order. */
  lemma LeftNeverEqualsRight<A, B>(a: A, b: B)
    ensures !Equals<A, B>(Left(a), Right(b)) && !Equals<A, B>(Right(b), Left(a))
  {
  }

  /** The rendering tells the variants apart, whatever the held values render as. */
  lemma ToStringTellsVariantsApart<A, B>(a: A, b: B, showLeft: A -> string, showRight: B -> string)
    ensures Either<A, B>.Left(a).ToString(showLeft, showRight) != Either<A, B>.Right(b).ToString(showLeft, showRight)
  {
    var l := Either<A, B>.Left(a).ToString(showLeft, showRight);
    var r := Either<A, B>.Right(b).ToString(showLeft, showRight);
    assert l[0] == 'L' && r[0] == 'R';
  }

  /** Two Lefts render alike exactly when their values render alike. */
  lemma ToStringOfLeftsDeterminesValue<A, B>(a: A, a': A, showLeft: A -> string, showRight: B -> string)
    ensures Either<A, B>.Left(a).ToString(showLeft, showRight) == Either<A, B>.Left(a').ToString(showLeft, showRight)
            <==> showLeft(a) == showLeft(a')
  {
    var s: string := Either<A, B>.Left(a).ToString(showLeft, showRight);
    var t: string := Either<A, B>.Left(a').ToString(showLeft, showRight);
    if s == t {
      assert showLeft(a) == s[5..|s| - 1] == t[5..|t| - 1] == showLeft(a');
    }
  }
}
