/**
 * Choice of queue families on a physical device. Both engines walk the
 * family list once; each test that succeeds overwrites the previous choice,
 * so the family finally chosen is the LAST one that passes the test.
 */
module QueueFamilies {
  import opened Common

  datatype QueueFlag = Graphics | Compute | Transfer | SparseBinding | ProtectedMemory

  /** `vk::QueueFamilyProperties` plus the surface-support answer for the family. */
  datatype QueueFamily = QueueFamily(flags: set<QueueFlag>, queueCount: u32, presentSupport: bool)

  predicate IsGraphicsFamily(f: QueueFamily)
  {
    Graphics in f.flags
  }

  /**
   * The "dedicated compute" test as written: compute is raised and the flags
   * XOR the graphics bit are non-zero, i.e. the flags are not exactly
   * {graphics}.
   */
  predicate ComputeTestAsWritten(f: QueueFamily)
  {
    Compute in f.flags && f.flags != {Graphics}
  }

  /** A dedicated compute family: compute without graphics. */
  predicate IsDedicatedCompute(f: QueueFamily)
  {
    Compute in f.flags && Graphics !in f.flags
  }

  predicate HasPresentSupport(f: QueueFamily)
  {
    f.presentSupport
  }

  /**
   * The XOR test does not look for a dedicated family at all: it accepts
   * every family that supports compute, including a combined graphics and
   * compute family, which the dedicated test rejects.
   */
  lemma ComputeTestAcceptsAnyComputeFamily(f: QueueFamily)
    ensures ComputeTestAsWritten(f) <==> Compute in f.flags
    ensures ComputeTestAsWritten(QueueFamily({Graphics, Compute}, 16, true))
    ensures !IsDedicatedCompute(QueueFamily({Graphics, Compute}, 16, true))
  {
    if Compute in f.flags {
      assert f.flags != {Graphics} by {
        assert Compute in f.flags && Compute !in {Graphics};
      }
    }
  }

  /** A dedicated compute family never offers graphics; every dedicated family passes the XOR test too. */
  lemma DedicatedComputeExcludesGraphics(f: QueueFamily)
    ensures IsDedicatedCompute(f) ==> !IsGraphicsFamily(f) && ComputeTestAsWritten(f)
  {
    if IsDedicatedCompute(f) {
      assert Compute !in {Graphics};
    }
  }

  /** Index of the last family that passes `test`. */
  function LastMatch(families: seq<QueueFamily>, test: QueueFamily -> bool): (r: Option<nat>)
    ensures r.Some? ==> r.value < |families| && test(families[r.value])
  {
    if families == [] then None
    else if test(families[|families| - 1]) then Some(|families| - 1)
    else LastMatch(families[..|families| - 1], test)
  }

  /** No family after the chosen one passes the test, and none passes when nothing is chosen. */
  lemma {:induction false} LastMatchIsLast(families: seq<QueueFamily>, test: QueueFamily -> bool)
    ensures var r := LastMatch(families, test);
      && (r.Some? ==> forall j :: r.value < j < |families| ==> !test(families[j]))
      && (r.None? ==> forall j :: 0 <= j < |families| ==> !test(families[j]))
  {
    if families != [] && !test(families[|families| - 1]) {
      var init := families[..|families| - 1];
      LastMatchIsLast(init, test);
      assert forall j :: 0 <= j < |init| ==> init[j] == families[j];
    }
  }

  /** Scanning one more family: it wins if it passes, else the earlier choice stands. */
  lemma LastMatchStep(families: seq<QueueFamily>, i: nat, test: QueueFamily -> bool)
    requires i < |families|
    ensures LastMatch(families[..i + 1], test) ==
      if test(families[i]) then Some(i) else LastMatch(families[..i], test)
  {
    assert families[..i + 1][..i] == families[..i];
  }

  /**
   * The single pass both engines make over the families: each test that
   * passes overwrites its choice, so each result is the last family
   * passing that test.
   */
  method ScanFamilies(families: seq<QueueFamily>) returns (graphics: Option<nat>, compute: Option<nat>, present: Option<nat>)
    ensures graphics == LastMatch(families, IsGraphicsFamily)
    ensures compute == LastMatch(families, ComputeTestAsWritten)
    ensures present == LastMatch(families, HasPresentSupport)
  {
    graphics, compute, present := None, None, None;
    var i := 0;
    while i < |families|
      invariant 0 <= i <= |families|
      invariant graphics == LastMatch(families[..i], IsGraphicsFamily)
      invariant compute == LastMatch(families[..i], ComputeTestAsWritten)
      invariant present == LastMatch(families[..i], HasPresentSupport)
    {
      var f := families[i];
      LastMatchStep(families, i, IsGraphicsFamily);
      LastMatchStep(families, i, ComputeTestAsWritten);
      LastMatchStep(families, i, HasPresentSupport);
      if Graphics in f.flags {
        graphics := Some(i);
      }
      if Compute in f.flags && f.flags != {Graphics} {
        compute := Some(i);
      }
      if f.presentSupport {
        present := Some(i);
      }
      i := i + 1;
    }
    assert families[..i] == families;
  }
}
