/**
 Category normalisation applied to the uploaded table before scoring:
 login-device values are folded into a closed vocabulary with an "Other"
 catch-all, payment-mode values only have two abbreviations expanded.
 */
module Normalize {
  import opened Tables

  const DeviceColumn: string := "PreferredLoginDevice"
  const PaymentColumn: string := "PreferredPaymentMode"

  const KnownDevices: set<string> := {"Mobile Phone", "Computer"}
  const KnownPaymentModes: set<string> := {"Credit Card", "Debit Card", "E wallet", "UPI", "Cash on Delivery"}

  /** The `replace` step for devices: one pass of the synonym map, unmatched cells untouched. */
  function ReplaceDevice(v: Value): Value {
    if v == Text("Phone") || v == Text("Tablet") then Text("Mobile Phone")
    else if v == Text("Desktop") || v == Text("Laptop") then Text("Computer")
    else v
  }

  /**
   Synonym replacement followed by the catch-all: anything that is not a
   known device afterwards (including a missing or numeric cell) becomes "Other".
   */
  function NormalizeDevice(v: Value): (r: Value)
    ensures r == Text("Mobile Phone") || r == Text("Computer") || r == Text("Other")
    ensures r == Text("Mobile Phone") <==> v in {Text("Phone"), Text("Tablet"), Text("Mobile Phone")}
    ensures r == Text("Computer") <==> v in {Text("Desktop"), Text("Laptop"), Text("Computer")}
    ensures r != Null
  {
    var w := ReplaceDevice(v);
    if w.Text? && w.s in KnownDevices then w else Text("Other")
  }

  /** The `replace` step for payment modes: only the two abbreviations are expanded. */
  function ReplacePayment(v: Value): Value {
    if v == Text("CC") then Text("Credit Card")
    else if v == Text("COD") then Text("Cash on Delivery")
    else v
  }

  /**
   Synonym replacement followed by a membership test whose two branches both
   keep the value, so an unknown mode such as "Fax" passes through unchanged.
   */
  function NormalizePayment(v: Value): (r: Value)
    ensures v == Text("CC") ==> r == Text("Credit Card")
    ensures v == Text("COD") ==> r == Text("Cash on Delivery")
    ensures v != Text("CC") && v != Text("COD") ==> r == v
    ensures r == Null <==> v == Null
  {
    var w := ReplacePayment(v);
    if w.Text? && w.s in KnownPaymentModes then w else w
  }

  lemma DeviceIdempotent(v: Value)
    ensures NormalizeDevice(NormalizeDevice(v)) == NormalizeDevice(v)
  {
  }

  lemma DeviceCanonicalFixed(s: string)
    requires s in KnownDevices || s == "Other"
    ensures NormalizeDevice(Text(s)) == Text(s)
  {
  }

  lemma PaymentIdempotent(v: Value)
    ensures NormalizePayment(NormalizePayment(v)) == NormalizePayment(v)
  {
  }

  lemma PaymentCanonicalFixed(s: string)
    requires s in KnownPaymentModes
    ensures NormalizePayment(Text(s)) == Text(s)
  {
  }

  /** An unknown value is bucketed for devices but kept for payment modes. */
  lemma UnknownValueAsymmetry()
    ensures NormalizeDevice(Text("Fax")) == Text("Other")
    ensures NormalizePayment(Text("Fax")) == Text("Fax")
  {
  }

  /** Normalise the two categorical columns that are present; every other column is untouched. */
  function NormalizeCategories(t: Table): (r: Table)
    requires Valid(t)
    ensures Valid(r)
    ensures r.columns == t.columns && r.height == t.height && r.data.Keys == t.data.Keys
    ensures forall c :: c in t.data && c != DeviceColumn && c != PaymentColumn ==> r.data[c] == t.data[c]
    ensures DeviceColumn in t.data ==> forall i :: 0 <= i < t.height ==>
              r.data[DeviceColumn][i] == NormalizeDevice(t.data[DeviceColumn][i])
    ensures PaymentColumn in t.data ==> forall i :: 0 <= i < t.height ==>
              r.data[PaymentColumn][i] == NormalizePayment(t.data[PaymentColumn][i])
  {
    var t1 := if DeviceColumn in t.columns then MapColumn(t, DeviceColumn, NormalizeDevice) else t;
    if PaymentColumn in t1.columns then MapColumn(t1, PaymentColumn, NormalizePayment) else t1
  }

  /** Normalising an already normalised table changes nothing. */
  lemma {:induction false} NormalizeCategoriesIdempotent(t: Table)
    requires Valid(t)
    ensures NormalizeCategories(NormalizeCategories(t)) == NormalizeCategories(t)
  {
    var n := NormalizeCategories(t);
    var nn := NormalizeCategories(n);
    forall c | c in n.data
      ensures nn.data[c] == n.data[c]
    {
      assert |nn.data[c]| == |n.data[c]| == t.height;
      if c == DeviceColumn {
        forall i | 0 <= i < t.height
          ensures nn.data[c][i] == n.data[c][i]
        {
          DeviceIdempotent(t.data[c][i]);
        }
      } else if c == PaymentColumn {
        forall i | 0 <= i < t.height
          ensures nn.data[c][i] == n.data[c][i]
        {
          PaymentIdempotent(t.data[c][i]);
        }
      }
    }
    assert nn.data == n.data;
  }
}
