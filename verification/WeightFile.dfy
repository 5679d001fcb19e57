/** The RNNoise weight file: six layers of signed bytes, read exactly and written back with quantized weights. */
module WeightFile {
  import opened Prelude

  datatype Activation = Tanh | Sigmoid | Relu | Other

  /** One layer as Keras holds it. A dense layer has no recurrent kernel. */
  datatype Layer = Layer(
    inputs: nat,
    neurons: nat,
    activation: Activation,
    kernel: seq<real>,
    recurrentKernel: seq<real>,
    bias: seq<real>)

  datatype ModelError = TruncatedHeader | InvalidHeader | Truncated | Trailing | UnsupportedActivation | TooLarge

  /** Whether each of the six layers is recurrent, in file order. */
  const LAYERS: seq<bool> := [false, true, true, true, false, false]

  function Gates(recurrent: bool): nat {
    if recurrent then 3 else 1
  }

  function KernelSize(inputs: nat, neurons: nat, recurrent: bool): nat {
    inputs * neurons * Gates(recurrent)
  }

  function RecurrentSize(neurons: nat, recurrent: bool): nat {
    if recurrent then neurons * neurons * 3 else 0
  }

  function BiasSize(neurons: nat, recurrent: bool): nat {
    neurons * Gates(recurrent)
  }

  predicate WellShaped(layer: Layer, recurrent: bool) {
    && |layer.kernel| == KernelSize(layer.inputs, layer.neurons, recurrent)
    && |layer.recurrentKernel| == RecurrentSize(layer.neurons, recurrent)
    && |layer.bias| == BiasSize(layer.neurons, recurrent)
  }

  function Signed(b: Byte): int {
    if b < 128 then b else b - 256
  }

  function Unsigned(v: int): Byte
    requires -128 <= v <= 127
  {
    if v < 0 then v + 256 else v
  }

  function Weight(b: Byte): real {
    Signed(b) as real / 256.0
  }

  /** Rounding to the nearest integer, ties to even. */
  function Rint(x: real): int {
    var low := x.Floor;
    var rest := x - low as real;
    if rest < 0.5 || (rest == 0.5 && low % 2 == 0) then low else low + 1
  }

  function Quantized(x: real): Byte {
    Unsigned(Max(-128, Min(127, Rint(x * 256.0))))
  }

  function Weights(bytes: seq<Byte>): seq<real> {
    seq(|bytes|, i requires 0 <= i < |bytes| => Weight(bytes[i]))
  }

  function QuantizedBytes(values: seq<real>): seq<Byte> {
    seq(|values|, i requires 0 <= i < |values| => Quantized(values[i]))
  }

  function ReadI8(data: seq<Byte>, offset: nat, count: nat): Result<(seq<real>, nat), ModelError> {
    if offset + count > |data| then Err(Truncated)
    else Ok((Weights(data[offset..offset + count]), offset + count))
  }

  function ActivationOf(code: int): Activation {
    if code == 0 then Tanh else if code == 1 then Sigmoid else if code == 2 then Relu else Other
  }

  datatype Body = Body(kernel: seq<real>, recurrentKernel: seq<real>, bias: seq<real>)

  /** The three weight blocks after a header; a dense layer's middle block is empty. */
  function ReadBody(data: seq<Byte>, offset: nat, k: nat, r: nat, b: nat): Result<(Body, nat), ModelError> {
    var kernel := ReadI8(data, offset, k);
    if kernel.Err? then Err(kernel.error)
    else
      var recurrentKernel := ReadI8(data, kernel.value.1, r);
      if recurrentKernel.Err? then Err(recurrentKernel.error)
      else
        var bias := ReadI8(data, recurrentKernel.value.1, b);
        if bias.Err? then Err(bias.error)
        else Ok((Body(kernel.value.0, recurrentKernel.value.0, bias.value.0), bias.value.1))
  }

  function ReadLayer(data: seq<Byte>, offset: nat, recurrent: bool): Result<(Layer, nat), ModelError> {
    if offset + 3 > |data| then Err(TruncatedHeader)
    else
      var inputs, neurons, code := Signed(data[offset]), Signed(data[offset + 1]), Signed(data[offset + 2]);
      if inputs <= 0 || neurons <= 0 || ActivationOf(code).Other? then Err(InvalidHeader)
      else
        var body := ReadBody(data, offset + 3, KernelSize(inputs, neurons, recurrent), RecurrentSize(neurons, recurrent),
                             BiasSize(neurons, recurrent));
        if body.Err? then Err(body.error)
        else
          var Body(kernel, recurrentKernel, bias) := body.value.0;
          Ok((Layer(inputs, neurons, ActivationOf(code), kernel, recurrentKernel, bias), body.value.1))
  }

  /** Layers one after the other, from the front. */
  function ReadLayers(data: seq<Byte>, offset: nat, shapes: seq<bool>): Result<(seq<Layer>, nat), ModelError> {
    if shapes == [] then Ok(([], offset))
    else
      var before := ReadLayers(data, offset, shapes[..|shapes| - 1]);
      if before.Err? then before
      else
        var layer := ReadLayer(data, before.value.1, shapes[|shapes| - 1]);
        if layer.Err? then Err(layer.error) else Ok((before.value.0 + [layer.value.0], layer.value.1))
  }

  function Parsed(data: seq<Byte>): Result<seq<Layer>, ModelError> {
    var layers := ReadLayers(data, 0, LAYERS);
    if layers.Err? then Err(layers.error)
    else if layers.value.1 != |data| then Err(Trailing)
    else Ok(layers.value.0)
  }

  method ReadModel(data: seq<Byte>) returns (result: Result<seq<Layer>, ModelError>)
    ensures result == Parsed(data)
  {
    var offset := 0;
    var layers := [];
    for i := 0 to |LAYERS|
      invariant ReadLayers(data, 0, LAYERS[..i]) == Ok((layers, offset))
    {
      assert LAYERS[..i + 1][..i] == LAYERS[..i];
      var layer := ReadLayer(data, offset, LAYERS[i]);
      if layer.Err? {
        FailureIsFinal(data, 0, LAYERS, i + 1);
        return Err(layer.error);
      }
      layers := layers + [layer.value.0];
      offset := layer.value.1;
    }
    assert LAYERS[..|LAYERS|] == LAYERS;
    if offset != |data| {
      return Err(Trailing);
    }
    result := Ok(layers);
  }

  lemma {:induction false} FailureIsFinal(data: seq<Byte>, offset: nat, shapes: seq<bool>, k: nat)
    requires k <= |shapes| && ReadLayers(data, offset, shapes[..k]).Err?
    ensures ReadLayers(data, offset, shapes) == ReadLayers(data, offset, shapes[..k])
  {
    if k == |shapes| {
      assert shapes[..k] == shapes;
    } else {
      assert shapes[..|shapes| - 1][..k] == shapes[..k];
      FailureIsFinal(data, offset, shapes[..|shapes| - 1], k);
    }
  }

  function Code(activation: Activation): Byte {
    match activation
    case Tanh => 0
    case Sigmoid => 1
    case Relu => 2
    case Other => 3
  }

  function ExportLayer(layer: Layer): Result<seq<Byte>, ModelError> {
    if layer.activation.Other? then Err(UnsupportedActivation)
    else if layer.inputs > 127 || layer.neurons > 127 then Err(TooLarge)
    else
      Ok([layer.inputs, layer.neurons, Code(layer.activation)]
         + QuantizedBytes(layer.kernel) + QuantizedBytes(layer.recurrentKernel) + QuantizedBytes(layer.bias))
  }

  function ExportLayers(layers: seq<Layer>): Result<seq<Byte>, ModelError> {
    if layers == [] then Ok([])
    else
      var before := ExportLayers(layers[..|layers| - 1]);
      if before.Err? then before
      else
        var last := ExportLayer(layers[|layers| - 1]);
        if last.Err? then last else Ok(before.value + last.value)
  }

  method ExportModel(layers: seq<Layer>) returns (result: Result<seq<Byte>, ModelError>)
    ensures result == ExportLayers(layers)
  {
    var bytes := [];
    for i := 0 to |layers|
      invariant ExportLayers(layers[..i]) == Ok(bytes)
    {
      assert layers[..i + 1][..i] == layers[..i];
      var layer := layers[i];
      if layer.activation.Other? {
        ExportFailureIsFinal(layers, i + 1);
        return Err(UnsupportedActivation);
      }
      if layer.inputs > 127 || layer.neurons > 127 {
        ExportFailureIsFinal(layers, i + 1);
        return Err(TooLarge);
      }
      ghost var written := bytes;
      bytes := bytes + [layer.inputs, layer.neurons, Code(layer.activation)];
      bytes := bytes + QuantizedBytes(layer.kernel);
      bytes := bytes + QuantizedBytes(layer.recurrentKernel);
      bytes := bytes + QuantizedBytes(layer.bias);
      assert bytes == written + ExportLayer(layer).value;
    }
    assert layers[..|layers|] == layers;
    result := Ok(bytes);
  }

  lemma {:induction false} ExportFailureIsFinal(layers: seq<Layer>, k: nat)
    requires k <= |layers| && ExportLayers(layers[..k]).Err?
    ensures ExportLayers(layers) == ExportLayers(layers[..k])
  {
    if k == |layers| {
      assert layers[..k] == layers;
    } else {
      assert layers[..|layers| - 1][..k] == layers[..k];
      ExportFailureIsFinal(layers[..|layers| - 1], k);
    }
  }

  lemma WeightSurvives(b: Byte)
    ensures Quantized(Weight(b)) == b
  {
    assert Weight(b) * 256.0 == Signed(b) as real;
  }

  lemma WeightsSurvive(bytes: seq<Byte>)
    ensures QuantizedBytes(Weights(bytes)) == bytes
  {
    forall i | 0 <= i < |bytes|
      ensures QuantizedBytes(Weights(bytes))[i] == bytes[i]
    {
      WeightSurvives(bytes[i]);
    }
  }

  /** Quantization picks the nearest representable weight, and saturates outside their range. */
  lemma QuantizationIsNearest(x: real)
    ensures -0.5 <= x <= 127.0 / 256.0 ==> -1.0 / 512.0 <= Weight(Quantized(x)) - x <= 1.0 / 512.0
    ensures x > 127.0 / 256.0 ==> Weight(Quantized(x)) == 127.0 / 256.0
    ensures x < -0.5 ==> Weight(Quantized(x)) == -0.5
  {
    var y := x * 256.0;
    assert y.Floor as real <= y < y.Floor as real + 1.0;
  }

  function BodyBytes(body: Body): seq<Byte> {
    QuantizedBytes(body.kernel) + QuantizedBytes(body.recurrentKernel) + QuantizedBytes(body.bias)
  }

  lemma BlockSurvives(data: seq<Byte>, offset: nat, count: nat)
    requires offset + count <= |data|
    ensures
      var values := ReadI8(data, offset, count).value.0;
      |values| == count && QuantizedBytes(values) == data[offset..offset + count]
  {
    WeightsSurvive(data[offset..offset + count]);
  }

  lemma Slices(data: seq<Byte>, a: nat, b: nat, c: nat, d: nat)
    requires a <= b <= c <= d <= |data|
    ensures data[a..d] == data[a..b] + data[b..c] + data[c..d]
  {
  }

  lemma BodySurvives(data: seq<Byte>, offset: nat, k: nat, r: nat, b: nat)
    requires ReadBody(data, offset, k, r, b).Ok?
    ensures
      var (body, end) := ReadBody(data, offset, k, r, b).value;
      && end == offset + k + r + b <= |data|
      && |body.kernel| == k && |body.recurrentKernel| == r && |body.bias| == b
      && BodyBytes(body) == data[offset..end]
  {
    var x, y := offset + k, offset + k + r;
    BlockSurvives(data, offset, k);
    BlockSurvives(data, x, r);
    BlockSurvives(data, y, b);
    Slices(data, offset, x, y, y + b);
  }

  function BodyOf(layer: Layer): Body {
    Body(layer.kernel, layer.recurrentKernel, layer.bias)
  }

  function Header(layer: Layer): seq<Byte>
    requires layer.inputs <= 127 && layer.neurons <= 127
  {
    [layer.inputs, layer.neurons, Code(layer.activation)]
  }

  lemma ExportShape(layer: Layer)
    requires !layer.activation.Other? && layer.inputs <= 127 && layer.neurons <= 127
    ensures ExportLayer(layer) == Ok(Header(layer) + BodyBytes(BodyOf(layer)))
  {
    var k, r, b := QuantizedBytes(layer.kernel), QuantizedBytes(layer.recurrentKernel), QuantizedBytes(layer.bias);
    assert Header(layer) + k + r + b == Header(layer) + (k + r + b);
  }

  /** A layer that was read exports as the very bytes it was read from. */
  lemma LayerSurvives(data: seq<Byte>, offset: nat, recurrent: bool)
    requires ReadLayer(data, offset, recurrent).Ok?
    ensures
      var (layer, end) := ReadLayer(data, offset, recurrent).value;
      && offset <= end <= |data| && WellShaped(layer, recurrent)
      && ExportLayer(layer) == Ok(data[offset..end])
  {
    var (layer, end) := ReadLayer(data, offset, recurrent).value;
    BodySurvives(data, offset + 3, KernelSize(layer.inputs, layer.neurons, recurrent), RecurrentSize(layer.neurons, recurrent),
                 BiasSize(layer.neurons, recurrent));
    ExportShape(layer);
    assert data[offset..offset + 3] == Header(layer);
    assert data[offset..end] == data[offset..offset + 3] + data[offset + 3..end];
  }

  lemma ExportAppends(layers: seq<Layer>, layer: Layer)
    requires ExportLayers(layers).Ok? && ExportLayer(layer).Ok?
    ensures ExportLayers(layers + [layer]) == Ok(ExportLayers(layers).value + ExportLayer(layer).value)
  {
    assert (layers + [layer])[..|layers|] == layers;
  }

  /** Reading one layer more. */
  lemma ReadAppends(data: seq<Byte>, offset: nat, shapes: seq<bool>, shape: bool)
    requires ReadLayers(data, offset, shapes).Ok?
    ensures
      var (layers, middle) := ReadLayers(data, offset, shapes).value;
      ReadLayers(data, offset, shapes + [shape]) ==
      match ReadLayer(data, middle, shape)
      case Ok((layer, end)) => Ok((layers + [layer], end))
      case Err(error) => Err(error)
  {
    assert (shapes + [shape])[..|shapes|] == shapes;
  }

  lemma {:induction false} LayersSurvive(data: seq<Byte>, offset: nat, shapes: seq<bool>)
    requires offset <= |data| && ReadLayers(data, offset, shapes).Ok?
    ensures
      var (layers, end) := ReadLayers(data, offset, shapes).value;
      && offset <= end <= |data| && |layers| == |shapes|
      && (forall i :: 0 <= i < |shapes| ==> WellShaped(layers[i], shapes[i]))
      && ExportLayers(layers) == Ok(data[offset..end])
  {
    hide ReadLayer, ExportLayer;
    if shapes != [] {
      var n := |shapes| - 1;
      LayersSurvive(data, offset, shapes[..n]);
      assert shapes == shapes[..n] + [shapes[n]];
      ReadAppends(data, offset, shapes[..n], shapes[n]);
      var (before, middle) := ReadLayers(data, offset, shapes[..n]).value;
      LayerSurvives(data, middle, shapes[n]);
      var (layer, end) := ReadLayer(data, middle, shapes[n]).value;
      ExportAppends(before, layer);
      Slices(data, offset, offset, middle, end);
      assert data[offset..offset] + data[offset..middle] == data[offset..middle];
    } else {
      assert data[offset..offset] == [];
    }
  }

  /** Every accepted file is reproduced byte for byte by loading and exporting it. */
  lemma ExportUndoesRead(data: seq<Byte>)
    requires Parsed(data).Ok?
    ensures ExportLayers(Parsed(data).value) == Ok(data)
  {
    LayersSurvive(data, 0, LAYERS);
    assert data[0..|data|] == data;
  }

  /** Weight `j` of a block at `offset` is its `j`-th signed byte, in units of 1/256. */
  ghost predicate Stored(data: seq<Byte>, offset: nat, values: seq<real>) {
    && offset + |values| <= |data|
    && forall j :: 0 <= j < |values| ==>
         var b: int := data[offset + j];
         values[j] * 256.0 == (if b < 128 then b else b - 256) as real
  }

  /**
   * The layout of a layer: input and neuron counts and an activation code, then kernel, recurrent kernel and bias. A
   * recurrent layer has three gates, and a dense one no recurrent kernel.
   */
  lemma LayerLayout(data: seq<Byte>, offset: nat, recurrent: bool)
    requires ReadLayer(data, offset, recurrent).Ok?
    ensures
      var (layer, end) := ReadLayer(data, offset, recurrent).value;
      && offset + 3 <= |data| && layer.inputs == data[offset] && layer.neurons == data[offset + 1]
      && layer.activation == [Tanh, Sigmoid, Relu, Other][Min(data[offset + 2], 3)]
      && |layer.kernel| == layer.inputs * layer.neurons * (if recurrent then 3 else 1)
      && |layer.recurrentKernel| == (if recurrent then layer.neurons * layer.neurons * 3 else 0)
      && |layer.bias| == layer.neurons * (if recurrent then 3 else 1)
      && var k, r := offset + 3, offset + 3 + |layer.kernel|;
         && Stored(data, k, layer.kernel) && Stored(data, r, layer.recurrentKernel)
         && Stored(data, r + |layer.recurrentKernel|, layer.bias)
         && end == r + |layer.recurrentKernel| + |layer.bias|
  {
    var (layer, end) := ReadLayer(data, offset, recurrent).value;
    BodySurvives(data, offset + 3, KernelSize(layer.inputs, layer.neurons, recurrent), RecurrentSize(layer.neurons, recurrent),
                 BiasSize(layer.neurons, recurrent));
  }

  /** An accepted file holds six layers, of which the second to the fourth are recurrent. */
  lemma AcceptedFilesHoldSixLayers(data: seq<Byte>)
    requires Parsed(data).Ok?
    ensures |Parsed(data).value| == 6
    ensures forall i :: 0 <= i < 6 ==> WellShaped(Parsed(data).value[i], 1 <= i <= 3)
  {
    LayersSurvive(data, 0, LAYERS);
  }

  function Requantized(layer: Layer): Layer {
    layer.(kernel := Weights(QuantizedBytes(layer.kernel)),
           recurrentKernel := Weights(QuantizedBytes(layer.recurrentKernel)),
           bias := Weights(QuantizedBytes(layer.bias)))
  }

  predicate Exportable(layer: Layer, recurrent: bool) {
    WellShaped(layer, recurrent) && 1 <= layer.inputs <= 127 && 1 <= layer.neurons <= 127 && !layer.activation.Other?
  }

  /** `bytes` stands in `data` at `offset`. */
  predicate At(data: seq<Byte>, offset: nat, bytes: seq<Byte>) {
    offset + |bytes| <= |data| && data[offset..offset + |bytes|] == bytes
  }

  lemma AtSplits(data: seq<Byte>, offset: nat, a: seq<Byte>, b: seq<Byte>)
    requires At(data, offset, a + b)
    ensures At(data, offset, a) && At(data, offset + |a|, b)
  {
    var all := data[offset..offset + |a + b|];
    assert all[..|a|] == a && all[|a|..] == b;
    assert all[..|a|] == data[offset..offset + |a|];
    assert all[|a|..] == data[offset + |a|..offset + |a| + |b|];
  }

  lemma BodyReadsBack(body: Body, data: seq<Byte>, offset: nat)
    requires At(data, offset, BodyBytes(body))
    ensures
      ReadBody(data, offset, |body.kernel|, |body.recurrentKernel|, |body.bias|) ==
      Ok((Body(Weights(QuantizedBytes(body.kernel)), Weights(QuantizedBytes(body.recurrentKernel)),
        Weights(QuantizedBytes(body.bias))),
          offset + |BodyBytes(body)|))
  {
    var k, r, b := QuantizedBytes(body.kernel), QuantizedBytes(body.recurrentKernel), QuantizedBytes(body.bias);
    AtSplits(data, offset, k + r, b);
    AtSplits(data, offset, k, r);
  }

  lemma LayerReadsBack(layer: Layer, recurrent: bool, data: seq<Byte>, offset: nat)
    requires Exportable(layer, recurrent) && ExportLayer(layer).Ok? && At(data, offset, ExportLayer(layer).value)
    ensures ReadLayer(data, offset, recurrent) == Ok((Requantized(layer), offset + |ExportLayer(layer).value|))
  {
    ExportShape(layer);
    AtSplits(data, offset, Header(layer), BodyBytes(BodyOf(layer)));
    BodyReadsBack(BodyOf(layer), data, offset + 3);
    HeaderAt(layer, data, offset);
  }

  lemma HeaderAt(layer: Layer, data: seq<Byte>, offset: nat)
    requires layer.inputs <= 127 && layer.neurons <= 127 && At(data, offset, Header(layer))
    ensures data[offset] == layer.inputs && data[offset + 1] == layer.neurons && data[offset + 2] == Code(layer.activation)
  {
    var header := data[offset..offset + 3];
    assert header[0] == data[offset] && header[1] == data[offset + 1] && header[2] == data[offset + 2];
  }

  function RequantizedAll(layers: seq<Layer>): seq<Layer> {
    if layers == [] then [] else RequantizedAll(layers[..|layers| - 1]) + [Requantized(layers[|layers| - 1])]
  }

  predicate AllExportable(layers: seq<Layer>, shapes: seq<bool>) {
    |layers| == |shapes| && forall i :: 0 <= i < |layers| ==> Exportable(layers[i], shapes[i])
  }

  lemma {:induction false} AllExport(layers: seq<Layer>, shapes: seq<bool>)
    requires AllExportable(layers, shapes)
    ensures ExportLayers(layers).Ok?
  {
    if layers != [] {
      AllExport(layers[..|layers| - 1], shapes[..|layers| - 1]);
    }
  }

  /** The bytes of one layer more end with that layer's bytes. */
  lemma LastAt(front: seq<Layer>, layer: Layer, data: seq<Byte>, front': seq<Byte>, last: seq<Byte>)
    requires ExportLayers(front) == Ok(front') && ExportLayer(layer) == Ok(last)
    requires ExportLayers(front + [layer]).Ok? && At(data, 0, ExportLayers(front + [layer]).value)
    ensures At(data, 0, front') && At(data, |front'|, last)
    ensures |ExportLayers(front + [layer]).value| == |front'| + |last|
  {
    ExportAppends(front, layer);
    AtSplits(data, 0, front', last);
  }

  lemma OneMoreReadsBack(
    layers: seq<Layer>, layer: Layer, shapes: seq<bool>, shape: bool, data: seq<Byte>, offset: nat, last: seq<Byte>)
    requires Exportable(layer, shape) && ExportLayer(layer) == Ok(last) && At(data, offset, last)
    requires ReadLayers(data, 0, shapes) == Ok((layers, offset))
    ensures ReadLayers(data, 0, shapes + [shape]) == Ok((layers + [Requantized(layer)], offset + |last|))
  {
    LayerReadsBack(layer, shape, data, offset);
    ReadAppends(data, 0, shapes, shape);
  }

  lemma {:induction false} LayersReadBack(layers: seq<Layer>, shapes: seq<bool>, data: seq<Byte>)
    requires AllExportable(layers, shapes)
    requires ExportLayers(layers).Ok? && At(data, 0, ExportLayers(layers).value)
    ensures ReadLayers(data, 0, shapes) == Ok((RequantizedAll(layers), |ExportLayers(layers).value|))
  {
    hide ReadLayer, ExportLayer, Exportable, Requantized;
    if layers != [] {
      var n := |layers| - 1;
      var front, layer := layers[..n], layers[n];
      assert ExportLayers(front).Ok? && ExportLayer(layer).Ok?;
      var bytes, last := ExportLayers(front).value, ExportLayer(layer).value;
      assert layers == front + [layer];
      LastAt(front, layer, data, bytes, last);
      LayersReadBack(front, shapes[..n], data);
      OneMoreReadsBack(RequantizedAll(front), layer, shapes[..n], shapes[n], data, |bytes|, last);
      assert shapes == shapes[..n] + [shapes[n]];
    }
  }

  /** Every well-shaped model of legal dimensions is read back with its weights quantized, and otherwise unchanged. */
  lemma ReadUndoesExport(layers: seq<Layer>)
    requires AllExportable(layers, LAYERS)
    ensures ExportLayers(layers).Ok? && Parsed(ExportLayers(layers).value) == Ok(RequantizedAll(layers))
  {
    AllExport(layers, LAYERS);
    LayersReadBack(layers, LAYERS, ExportLayers(layers).value);
  }

  /** Exporting a well-shaped model succeeds exactly if the file could be read back: dimensions fit a signed byte. */
  lemma {:induction false} ExportSucceedsIff(layers: seq<Layer>)
    ensures ExportLayers(layers).Ok? <==>
      forall i :: 0 <= i < |layers| ==> layers[i].inputs <= 127 && layers[i].neurons <= 127 && !layers[i].activation.Other?
  {
    if layers != [] {
      ExportSucceedsIff(layers[..|layers| - 1]);
    }
  }

  /** A weight that a byte can hold. */
  predicate Representable(values: seq<real>) {
    forall i :: 0 <= i < |values| ==> values[i] == Weight(Quantized(values[i]))
  }

  /** A quantized model is read back exactly. */
  lemma QuantizedModelReadsBack(layers: seq<Layer>)
    requires AllExportable(layers, LAYERS)
    requires forall i :: 0 <= i < |layers| ==>
      Representable(layers[i].kernel) && Representable(layers[i].recurrentKernel) && Representable(layers[i].bias)
    ensures ExportLayers(layers).Ok? && Parsed(ExportLayers(layers).value) == Ok(layers)
  {
    ReadUndoesExport(layers);
    RepresentableAllSurvive(layers);
  }

  lemma {:induction false} RepresentableAllSurvive(layers: seq<Layer>)
    requires forall i :: 0 <= i < |layers| ==>
      Representable(layers[i].kernel) && Representable(layers[i].recurrentKernel) && Representable(layers[i].bias)
    ensures RequantizedAll(layers) == layers
  {
    hide Representable, Requantized;
    if layers != [] {
      RepresentableAllSurvive(layers[..|layers| - 1]);
      RepresentableLayerSurvives(layers[|layers| - 1]);
    }
  }

  lemma RepresentableLayerSurvives(layer: Layer)
    requires Representable(layer.kernel) && Representable(layer.recurrentKernel) && Representable(layer.bias)
    ensures Requantized(layer) == layer
  {
    RepresentableSurvives(layer.kernel);
    RepresentableSurvives(layer.recurrentKernel);
    RepresentableSurvives(layer.bias);
  }

  lemma RepresentableSurvives(values: seq<real>)
    requires Representable(values)
    ensures Weights(QuantizedBytes(values)) == values
  {
  }

  lemma BodyLooksNoFurther(data: seq<Byte>, more: seq<Byte>, offset: nat, k: nat, r: nat, b: nat)
    requires ReadBody(data, offset, k, r, b).Ok?
    ensures ReadBody(data + more, offset, k, r, b) == ReadBody(data, offset, k, r, b)
  {
    var x, y := offset + k, offset + k + r;
    assert (data + more)[offset..x] == data[offset..x];
    assert (data + more)[x..y] == data[x..y];
    assert (data + more)[y..y + b] == data[y..y + b];
  }

  lemma LayerLooksNoFurther(data: seq<Byte>, more: seq<Byte>, offset: nat, recurrent: bool)
    requires ReadLayer(data, offset, recurrent).Ok?
    ensures ReadLayer(data + more, offset, recurrent) == ReadLayer(data, offset, recurrent)
  {
    var (layer, end) := ReadLayer(data, offset, recurrent).value;
    BodyLooksNoFurther(data, more, offset + 3, KernelSize(layer.inputs, layer.neurons, recurrent),
                       RecurrentSize(layer.neurons, recurrent), BiasSize(layer.neurons, recurrent));
  }

  lemma {:induction false} LayersLookNoFurther(data: seq<Byte>, more: seq<Byte>, offset: nat, shapes: seq<bool>)
    requires ReadLayers(data, offset, shapes).Ok?
    ensures ReadLayers(data + more, offset, shapes) == ReadLayers(data, offset, shapes)
  {
    if shapes != [] {
      var n := |shapes| - 1;
      LayersLookNoFurther(data, more, offset, shapes[..n]);
      LayerLooksNoFurther(data, more, ReadLayers(data, offset, shapes[..n]).value.1, shapes[n]);
    }
  }

  /** No accepted file is a proper prefix of another: truncated and extended files are rejected. */
  lemma AcceptedFilesAreExact(data: seq<Byte>, more: seq<Byte>)
    requires more != []
    ensures !(Parsed(data).Ok? && Parsed(data + more).Ok?)
    ensures Parsed(data).Ok? ==> Parsed(data + more) == Err(Trailing)
  {
    if Parsed(data).Ok? {
      LayersLookNoFurther(data, more, 0, LAYERS);
    }
  }
}
