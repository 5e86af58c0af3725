/** Currency formatting, the order message sent to the kitchen, and the
    chat deep-link that carries it (lib/utils.ts). */
module Utils {
  import opened Decimal
  import opened SeqFacts

  const Rupee: char := '\U{20B9}'

  /** "₹" followed by the whole-rupee amount. */
  function FormatCurrency(amount: int): (s: string)
    ensures |s| >= 2 && s[0] == Rupee
    ensures amount >= 0 ==> AllDigits(s[1..]) && (s[1] == '0' ==> amount == 0)
    ensures amount < 0 ==> s[1] == '-' && AllDigits(s[2..])
    ensures (AllDigits(s[1..]) || s[1] == '-') && ParseInt(s[1..]) == amount
  {
    IntRoundTrip(amount);
    var s := [Rupee] + IntToDecimal(amount);
    assert s[1..] == IntToDecimal(amount);
    s
  }

  /** A whole amount prints as its plain digits: 350 rupees is "₹350". */
  lemma FormatCurrencyExample()
    ensures FormatCurrency(350) == [Rupee] + "350"
  {
    assert NatToDecimal(350) == NatToDecimal(35) + [DigitChar(0)];
    assert NatToDecimal(35) == NatToDecimal(3) + [DigitChar(5)];
  }

  // ---------------------------------------------------------------------
  // The order summary
  // ---------------------------------------------------------------------

  /** The three fields of an item the summary reads. */
  datatype SummaryLine = SummaryLine(name: string, quantity: int, price: int)

  /** The horizontal rule: thirty '=' characters. */
  const Rule: string := "=============================="

  const Closing: string := "Please confirm this order. Thank you!"

  function OrderTypeText(orderType: string): (t: string)
    ensures t == "Delivery" <==> orderType == "delivery"
    ensures t == "Delivery" || t == "Pickup"
  {
    if orderType == "delivery" then "Delivery" else "Pickup"
  }

  function PaymentText(paymentMethod: string): (t: string)
    ensures t == "Cash on Delivery" <==> paymentMethod == "COD"
    ensures t == "Cash on Delivery" || t == "Online Payment"
  {
    if paymentMethod == "COD" then "Cash on Delivery" else "Online Payment"
  }

  /** The kitchen name wrapped in '*'. */
  function KitchenLine(kitchenName: string): string {
    "\U{1F37D}\U{FE0F} *" + kitchenName + "*\n\n"
  }

  const TitleLine: string := "\U{1F4CB} *ORDER SUMMARY*\n"

  /** Kitchen name, the ORDER SUMMARY line and the rule. */
  function SummaryHeader(kitchenName: string): string {
    KitchenLine(kitchenName) + TitleLine + (Rule + "\n\n")
  }

  /** "name × quantity" on its own line. */
  function ItemLine(line: SummaryLine): string {
    line.name + " \U{00D7} " + IntToDecimal(line.quantity) + "\n"
  }

  /** The line amount, price times quantity, then a blank line. */
  function AmountLine(line: SummaryLine): string {
    FormatCurrency(line.price * line.quantity) + "\n\n"
  }

  function ItemBlock(line: SummaryLine): string {
    ItemLine(line) + AmountLine(line)
  }

  /** One block per line, in list order. */
  function ItemBlocks(lines: seq<SummaryLine>): (blocks: string)
    ensures lines == [] <==> blocks == ""
  {
    if lines == [] then "" else ItemBlocks(lines[..|lines| - 1]) + ItemBlock(lines[|lines| - 1])
  }

  /** The total line prints the total it is given. */
  function TotalLine(total: int): string {
    "*Total: " + FormatCurrency(total) + "*\n\n"
  }

  function TypeLine(orderType: string): string {
    "\U{1F4E6} " + OrderTypeText(orderType) + "\n"
  }

  function PaymentLine(paymentMethod: string): string {
    "\U{1F4B3} " + PaymentText(paymentMethod) + "\n\n"
  }

  /** The rule, the total, the two labels and the closing request. */
  function SummaryFooter(total: int, orderType: string, paymentMethod: string): string {
    (Rule + "\n") + TotalLine(total) + TypeLine(orderType) + PaymentLine(paymentMethod) + Closing
  }

  /** The whole message, as a function of the five parameters only. */
  function OrderSummary(items: seq<SummaryLine>, total: int, orderType: string,
                        paymentMethod: string, kitchenName: string): string
  {
    SummaryHeader(kitchenName) + ItemBlocks(items) + SummaryFooter(total, orderType, paymentMethod)
  }

  /** Builds the summary step by step, one block per item. */
  method FormatOrderSummary(items: seq<SummaryLine>, total: int, orderType: string,
                            paymentMethod: string, kitchenName: string)
    returns (summary: string)
    ensures summary == OrderSummary(items, total, orderType, paymentMethod, kitchenName)
  {
    summary := KitchenLine(kitchenName);
    summary := summary + TitleLine;
    summary := summary + (Rule + "\n\n");
    assert summary == SummaryHeader(kitchenName) + ItemBlocks(items[..0]);

    for i := 0 to |items|
      invariant summary == SummaryHeader(kitchenName) + ItemBlocks(items[..i])
    {
      var item := items[i];
      summary := summary + ItemLine(item);
      summary := summary + AmountLine(item);
      BlockStep(SummaryHeader(kitchenName), items, i);
    }
    assert items[..|items|] == items;

    ghost var body := summary;
    summary := summary + (Rule + "\n");
    summary := summary + TotalLine(total);
    summary := summary + TypeLine(orderType);
    summary := summary + PaymentLine(paymentMethod);
    summary := summary + Closing;
    FooterAssoc(body, total, orderType, paymentMethod);
  }

  /** Appending one item's two lines extends the blocks by that item's block. */
  lemma BlockStep(header: string, items: seq<SummaryLine>, i: nat)
    requires i < |items|
    ensures header + ItemBlocks(items[..i]) + ItemLine(items[i]) + AmountLine(items[i])
            == header + ItemBlocks(items[..i + 1])
  {
    var blocks := ItemBlocks(items[..i]);
    assert items[..i + 1][..i] == items[..i];
    assert ItemBlocks(items[..i + 1]) == blocks + ItemBlock(items[i]);
    AppendAssoc(header + blocks, ItemLine(items[i]), AmountLine(items[i]));
    AppendAssoc(header, blocks, ItemBlock(items[i]));
  }

  /** Appending the footer's five parts one by one appends the footer. */
  lemma FooterAssoc(body: string, total: int, orderType: string, paymentMethod: string)
    ensures body + (Rule + "\n") + TotalLine(total) + TypeLine(orderType) + PaymentLine(paymentMethod) + Closing
            == body + SummaryFooter(total, orderType, paymentMethod)
  {
    var r, t, y, p, c := Rule + "\n", TotalLine(total), TypeLine(orderType), PaymentLine(paymentMethod), Closing;
    AppendAssoc(body, r, t);
    AppendAssoc(body, r + t, y);
    AppendAssoc(body, r + t + y, p);
    AppendAssoc(body, r + t + y + p, c);
  }

  lemma RuleIsThirtyEquals()
    ensures |Rule| == 30 && forall i :: 0 <= i < |Rule| ==> Rule[i] == '='
  {
  }

  /** The message opens with the kitchen name wrapped in '*', the ORDER
      SUMMARY line and the rule. */
  lemma SummaryStartsWithHeader(items: seq<SummaryLine>, total: int, orderType: string,
                                paymentMethod: string, kitchenName: string)
    ensures var s := OrderSummary(items, total, orderType, paymentMethod, kitchenName);
            var h := SummaryHeader(kitchenName);
            |h| <= |s| && s[..|h|] == h
  {
    var h := SummaryHeader(kitchenName);
    var rest := ItemBlocks(items) + SummaryFooter(total, orderType, paymentMethod);
    AppendAssoc(h, ItemBlocks(items), SummaryFooter(total, orderType, paymentMethod));
    PrefixOfAppend(h, rest);
  }

  /** The message always ends with the closing request. */
  lemma SummaryEndsWithClosing(items: seq<SummaryLine>, total: int, orderType: string,
                               paymentMethod: string, kitchenName: string)
    ensures var s := OrderSummary(items, total, orderType, paymentMethod, kitchenName);
            |Closing| <= |s| && s[|s| - |Closing|..] == Closing
  {
    var body := SummaryHeader(kitchenName) + ItemBlocks(items);
    var lead := (Rule + "\n") + TotalLine(total) + TypeLine(orderType) + PaymentLine(paymentMethod);
    AppendAssoc(body, lead, Closing);
    PrefixOfAppend(body + lead, Closing);
  }

  /** Each item contributes exactly its own block, in input order: the blocks of
      a concatenation are the concatenation of the blocks. */
  lemma {:induction false} ItemBlocksConcat(a: seq<SummaryLine>, b: seq<SummaryLine>)
    ensures ItemBlocks(a + b) == ItemBlocks(a) + ItemBlocks(b)
    decreases |b|
  {
    if b == [] {
      assert a + b == a;
    } else {
      var b' := b[..|b| - 1];
      assert (a + b)[..|a + b| - 1] == a + b';
      assert (a + b)[|a + b| - 1] == b[|b| - 1];
      ItemBlocksConcat(a, b');
      AppendAssoc(ItemBlocks(a), ItemBlocks(b'), ItemBlock(b[|b| - 1]));
    }
  }

  /** The total line prints the total argument and nothing about the items: the
      text after the item blocks is the same whatever the items, and it starts
      with the rule and the total line of the given total. */
  lemma TotalIsNotRecomputed(items: seq<SummaryLine>, total: int, orderType: string,
                             paymentMethod: string, kitchenName: string)
    ensures var s := OrderSummary(items, total, orderType, paymentMethod, kitchenName);
            var n := |SummaryHeader(kitchenName) + ItemBlocks(items)|;
            n <= |s| && s[n..] == SummaryFooter(total, orderType, paymentMethod)
            && s[n..][..|Rule| + 1 + |TotalLine(total)|] == Rule + "\n" + TotalLine(total)
  {
    var body := SummaryHeader(kitchenName) + ItemBlocks(items);
    var f := SummaryFooter(total, orderType, paymentMethod);
    PrefixOfAppend(body, f);
    var r, t, y, p := Rule + "\n", TotalLine(total), TypeLine(orderType), PaymentLine(paymentMethod);
    AppendAssoc(r + t, y, p);
    AppendAssoc(r + t, y + p, Closing);
    PrefixOfAppend(r + t, (y + p) + Closing);
  }

  /** The amount in the total line reads back as the total given. */
  lemma TotalLineReadsBack(total: int)
    ensures var t := TotalLine(total);
            var c := FormatCurrency(total);
            |t| == 8 + |c| + 3 && t[8..8 + |c|] == c && ParseInt(c[1..]) == total
  {
    var c := FormatCurrency(total);
    PrefixOfAppend("*Total: ", c);
    AppendAssoc("*Total: ", c, "*\n\n");
    PrefixOfAppend("*Total: " + c, "*\n\n");
  }

  // ---------------------------------------------------------------------
  // The chat deep-link
  // ---------------------------------------------------------------------

  /** The digit characters of s, in their original order. */
  function DigitsOnly(s: string): (d: string)
    ensures AllDigits(d) && |d| <= |s|
  {
    if s == [] then [] else (if IsDigit(s[0]) then [s[0]] else []) + DigitsOnly(s[1..])
  }

  /** The longest prefix of s made of digits. */
  function LeadingDigits(s: string): (d: string)
    ensures AllDigits(d) && |d| <= |s| && d == s[..|d|]
  {
    if s == [] || !IsDigit(s[0]) then [] else [s[0]] + LeadingDigits(s[1..])
  }

  /** Filtering respects concatenation: the digits of each part keep their
      relative order. */
  lemma {:induction false} DigitsOnlyConcat(a: string, b: string)
    ensures DigitsOnly(a + b) == DigitsOnly(a) + DigitsOnly(b)
    decreases |a|
  {
    if a == [] {
      assert a + b == b;
    } else {
      var h := if IsDigit(a[0]) then [a[0]] else [];
      assert (a + b)[0] == a[0] && (a + b)[1..] == a[1..] + b;
      assert DigitsOnly(a + b) == h + DigitsOnly(a[1..] + b);
      assert DigitsOnly(a) == h + DigitsOnly(a[1..]);
      DigitsOnlyConcat(a[1..], b);
      AppendAssoc(h, DigitsOnly(a[1..]), DigitsOnly(b));
    }
  }

  /** A string is left alone by the filter exactly when it is all digits. */
  lemma {:induction false} DigitsOnlyFixpoint(s: string)
    ensures DigitsOnly(s) == s <==> AllDigits(s)
    decreases |s|
  {
    if s != [] {
      DigitsOnlyFixpoint(s[1..]);
      if !IsDigit(s[0]) {
        assert |DigitsOnly(s)| <= |s[1..]| < |s|;
      }
    }
  }

  /** On one character the filter keeps a digit and drops anything else;
      with DigitsOnlyConcat this fixes the filter on every string. */
  lemma DigitsOnlyChar(c: char)
    ensures DigitsOnly([c]) == if IsDigit(c) then [c] else []
  {
    assert [c][1..] == [];
  }

  /** Every digit keeps its number of occurrences, and no other character
      occurs in the result: non-digits are removed, not replaced. */
  lemma {:induction false} DigitsOnlyCounts(s: string, c: char)
    ensures multiset(DigitsOnly(s))[c] == if IsDigit(c) then multiset(s)[c] else 0
    decreases |s|
  {
    if s != [] {
      DigitsOnlyCounts(s[1..], c);
      assert s == [s[0]] + s[1..];
      assert multiset(s) == multiset{s[0]} + multiset(s[1..]);
    }
  }

  /** Filtering twice is filtering once. */
  lemma DigitsOnlyIdempotent(s: string)
    ensures DigitsOnly(DigitsOnly(s)) == DigitsOnly(s)
  {
    DigitsOnlyFixpoint(DigitsOnly(s));
  }

  lemma {:induction false} LeadingDigitsStop(d: string, rest: string)
    requires AllDigits(d)
    requires rest != [] && !IsDigit(rest[0])
    ensures LeadingDigits(d + rest) == d
    decreases |d|
  {
    if d != [] {
      assert (d + rest)[1..] == d[1..] + rest;
      LeadingDigitsStop(d[1..], rest);
    } else {
      assert d + rest == rest;
    }
  }

  const WhatsAppHost: string := "https://wa.me/"

  /** The deep-link: host, the phone's digits, "?text=", the encoded message.
      The phone part can be read back as the run of digits after the host, and
      the encoded message is everything after "?text=". */
  function WhatsAppURL(phone: string, message: string, encode: string -> string): (url: string)
    ensures |url| >= |WhatsAppHost| + |DigitsOnly(phone)| + 6
    ensures url[..|WhatsAppHost|] == WhatsAppHost
    ensures LeadingDigits(url[|WhatsAppHost|..]) == DigitsOnly(phone)
    ensures url[|WhatsAppHost| + |DigitsOnly(phone)|..][..6] == "?text="
    ensures url[|WhatsAppHost| + |DigitsOnly(phone)| + 6..] == encode(message)
  {
    var digits := DigitsOnly(phone);
    var url := WhatsAppHost + digits + "?text=" + encode(message);
    assert url[|WhatsAppHost|..] == digits + ("?text=" + encode(message));
    LeadingDigitsStop(digits, "?text=" + encode(message));
    url
  }
}
