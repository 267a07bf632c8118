/** The conditions a preset can carry (cmCMakePresetsGraphInternal.h). */
module ConditionTree {

  datatype Condition =
    | NullCondition
    | ConstCondition(value: bool)
    | EqualsCondition(lhs: string, rhs: string)
    | InListCondition(str: string, list: seq<string>)
    | MatchesCondition(text: string, regex: string)
    | AnyAllOfCondition(conditions: seq<Condition>, stopValue: bool)
    | NotCondition(sub: Condition)
}
