// NullToVisibilityConverter (Converters/NullToVisibilityConverter.cs): shows an
// element when the bound value is non-null, or, with the parameter "Inverse",
// when it is null.
module Converters {
  import opened Wrappers

  datatype Visibility = Visible | Hidden | Collapsed

  /** Inverse mode: the parameter's `ToString()` text is exactly "Inverse" (`parameter` is None for null). */
  predicate IsInverse(parameter: Option<string>)
  {
    parameter == Some("Inverse")
  }

  function Convert<V>(value: Option<V>, parameter: Option<string>): (r: Visibility)
    ensures r != Hidden
    ensures r == Visible <==> (value.None? <==> IsInverse(parameter))
  {
    var isNull := value.None?;
    if IsInverse(parameter) then (if isNull then Visible else Collapsed)
    else (if isNull then Collapsed else Visible)
  }

  function ConvertBack<V>(value: Visibility, parameter: Option<string>): (r: Result<Option<V>>)
    ensures r == Failure(NotImplemented)
  {
    Failure(NotImplemented)
  }

  /**
   * The truth table: non-inverse shows non-null values, inverse shows null
   * ones. It spells out the four cases for a reader and needs no proof.
   */
  lemma TruthTable<V>(v: V, parameter: Option<string>)
    ensures !IsInverse(parameter) ==> Convert<V>(None, parameter) == Collapsed && Convert(Some(v), parameter) == Visible
    ensures IsInverse(parameter) ==> Convert<V>(None, parameter) == Visible && Convert(Some(v), parameter) == Collapsed
    ensures !IsInverse(None) && !IsInverse(Some("inverse"))
  {
  }
}
