/** The operator table of JavaScript `dynamic` expressions
    (`IrDynamicOperator`): each operator's source image and whether it
    assigns to its receiver. */
module DynamicOperators {

  datatype DynamicOperator =
    | UnaryPlus | UnaryMinus | Excl
    | PrefixIncrement | PostfixIncrement | PrefixDecrement | PostfixDecrement
    | BinaryPlus | BinaryMinus | Mul | Div | Mod
    | Gt | Lt | Ge | Le
    | EqEq | ExclEq | EqEqEq | ExclEqEq
    | AndAnd | OrOr
    | Eq | PlusEq | MinusEq | MulEq | DivEq | ModEq
    | ArrayAccess | Invoke

  /** The operator's source text.  The assignment operators are exactly
      those written with an assignment image. */
  function Image(op: DynamicOperator): (r: string)
    ensures |r| > 0
    ensures IsAssignmentOperator(op) <==> r in AssignmentImages
  {
    match op
    case UnaryPlus => "+"
    case UnaryMinus => "-"
    case Excl => "!"
    case PrefixIncrement => "++"
    case PostfixIncrement => "++"
    case PrefixDecrement => "--"
    case PostfixDecrement => "--"
    case BinaryPlus => "+"
    case BinaryMinus => "-"
    case Mul => "*"
    case Div => "/"
    case Mod => "%"
    case Gt => ">"
    case Lt => "<"
    case Ge => ">="
    case Le => "<="
    case EqEq => "=="
    case ExclEq => "!="
    case EqEqEq => "==="
    case ExclEqEq => "!=="
    case AndAnd => "&&"
    case OrOr => "||"
    case Eq => "="
    case PlusEq => "+="
    case MinusEq => "-="
    case MulEq => "*="
    case DivEq => "/="
    case ModEq => "%="
    case ArrayAccess => "[]"
    case Invoke => "()"
  }

  /** The table's `isAssignmentOperator` column (false unless given). */
  predicate IsAssignmentOperator(op: DynamicOperator) {
    match op
    case PrefixIncrement => true
    case PostfixIncrement => true
    case PrefixDecrement => true
    case PostfixDecrement => true
    case Eq => true
    case PlusEq => true
    case MinusEq => true
    case MulEq => true
    case DivEq => true
    case ModEq => true
    case _ => false
  }

  /** The increments, decrements, plain assignment and the five compound
      assignments. */
  const AssignmentImages: set<string> := {"++", "--", "=", "+=", "-=", "*=", "/=", "%="}

  /** The images of the comparison operators that happen to end in `=`. */
  predicate IsComparisonImage(image: string) {
    image == "==" || image == "!=" || image == "===" || image == "!==" || image == ">=" || image == "<="
  }

  /** The two columns of the table agree: an operator assigns exactly when
      its image is an increment or decrement, or ends in `=` without being
      a comparison. */
  lemma AssignmentOperatorsByImage(op: DynamicOperator)
    ensures IsAssignmentOperator(op)
            <==> (Image(op) == "++" || Image(op) == "--"
                  || (Image(op)[|Image(op)| - 1] == '=' && !IsComparisonImage(Image(op))))
  {
  }

  /** The pairs of distinct operators sharing an image: prefix and postfix
      increment, prefix and postfix decrement, unary and binary plus, unary
      and binary minus. */
  predicate IsImageClash(a: DynamicOperator, b: DynamicOperator) {
    {a, b} == {PrefixIncrement, PostfixIncrement}
    || {a, b} == {PrefixDecrement, PostfixDecrement}
    || {a, b} == {UnaryPlus, BinaryPlus}
    || {a, b} == {UnaryMinus, BinaryMinus}
  }

  /** Images are not unique, and the four clashing pairs are the only ones. */
  lemma ImageClashes(a: DynamicOperator, b: DynamicOperator)
    ensures Image(a) == Image(b) && a != b <==> IsImageClash(a, b)
  {
    if Image(a) == Image(b) && a != b {
      ImageDeterminesOperator(a, b);
    }
  }

  /** Outside the clashing pairs the image determines the operator. */
  lemma ImageDeterminesOperator(a: DynamicOperator, b: DynamicOperator)
    requires Image(a) == Image(b)
    ensures a == b || IsImageClash(a, b)
  {
  }
}
