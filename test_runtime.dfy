/**
 * TestDDMRuntime: a scene component that, when it wakes, pushes its own
 * settings into every deformer it finds. A negative setting means "leave the
 * deformer's value as it is"; the defaults are all negative.
 */
module TestRuntime {
  import SkinnedMesh

  /** The override rule for an integer setting. */
  function Override(current: int, setting: int): int {
    if setting >= 0 then setting else current
  }

  /** The same rule for a floating-point setting (`setting >= 0.0f`). */
  function OverrideReal(current: real, setting: real): real {
    if setting >= 0.0 then setting else current
  }

  /** A non-negative setting replaces the value, a negative one keeps it, and
      applying a setting a second time changes nothing more. */
  lemma OverrideRule(current: int, setting: int)
    ensures setting >= 0 ==> Override(current, setting) == setting
    ensures setting < 0 ==> Override(current, setting) == current
    ensures Override(Override(current, setting), setting) == Override(current, setting)
  {
  }

  lemma OverrideRealRule(current: real, setting: real)
    ensures setting >= 0.0 ==> OverrideReal(current, setting) == setting
    ensures setting < 0.0 ==> OverrideReal(current, setting) == current
    ensures OverrideReal(OverrideReal(current, setting), setting) == OverrideReal(current, setting)
  {
  }

  /** The classic Delta Mush deformer as far as UpdateValues sees it: the two
      parameters it overrides. */
  class DeltaMushSkinnedMesh {
    var iterations: int
    var adjacencyMatchingVertexTolerance: real

    constructor (iterations: int, adjacencyMatchingVertexTolerance: real)
      ensures this.iterations == iterations
      ensures this.adjacencyMatchingVertexTolerance == adjacencyMatchingVertexTolerance
    {
      this.iterations := iterations;
      this.adjacencyMatchingVertexTolerance := adjacencyMatchingVertexTolerance;
    }
  }

  class TestDDMRuntime {
    var iterations: int
    var smoothLambda: real
    var adjacencyMatchingVertexTolerance: real

    /** Every setting starts at -1: nothing is overridden. */
    constructor ()
      ensures iterations == -1 && smoothLambda == -1.0 && adjacencyMatchingVertexTolerance == -1.0
    {
      iterations := -1;
      smoothLambda := -1.0;
      adjacencyMatchingVertexTolerance := -1.0;
    }

    /** Overrides the three smoothing parameters of a Direct Delta Mush
        deformer; a missing deformer is left alone. */
    method UpdateValues(script: SkinnedMesh.DDMSkinnedMesh?)
      modifies if script != null then {script} else {}
      ensures script != null ==>
                && script.iterations == Override(old(script.iterations), iterations)
                && script.smoothLambda == OverrideReal(old(script.smoothLambda), smoothLambda)
                && script.adjacencyMatchingVertexTolerance
                   == OverrideReal(old(script.adjacencyMatchingVertexTolerance),
                                   adjacencyMatchingVertexTolerance)
      ensures script != null ==>
                unchanged(script`useCompute, script`debugMode, script`cpuVertices,
                          script`cpuNormals, script`cpuBounds, script`gpuBones,
                          script`dispatchedGroups, script`skinEnabled)
    {
      if script != null {
        if iterations >= 0 {
          script.iterations := iterations;
        }
        if smoothLambda >= 0.0 {
          script.smoothLambda := smoothLambda;
        }
        if adjacencyMatchingVertexTolerance >= 0.0 {
          script.adjacencyMatchingVertexTolerance := adjacencyMatchingVertexTolerance;
        }
      }
    }

    /** The overload for the classic deformer: the iteration count and the
        tolerance, never the smoothing factor. */
    method UpdateDeltaMushValues(script: DeltaMushSkinnedMesh?)
      modifies if script != null then {script} else {}
      ensures script != null ==>
                && script.iterations == Override(old(script.iterations), iterations)
                && script.adjacencyMatchingVertexTolerance
                   == OverrideReal(old(script.adjacencyMatchingVertexTolerance),
                                   adjacencyMatchingVertexTolerance)
    {
      if script != null {
        if iterations >= 0 {
          script.iterations := iterations;
        }
        if adjacencyMatchingVertexTolerance >= 0.0 {
          script.adjacencyMatchingVertexTolerance := adjacencyMatchingVertexTolerance;
        }
      }
    }

    /** With the default settings, neither overload changes a parameter. */
    lemma DefaultsOverrideNothing(current: int, smoothing: real, tolerance: real)
      requires iterations == -1 && smoothLambda == -1.0 && adjacencyMatchingVertexTolerance == -1.0
      ensures Override(current, iterations) == current
      ensures OverrideReal(smoothing, smoothLambda) == smoothing
      ensures OverrideReal(tolerance, adjacencyMatchingVertexTolerance) == tolerance
    {
    }
  }
}
