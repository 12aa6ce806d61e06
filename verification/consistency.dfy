/** Agreement between the processor and the glue around it: the settings
    written by the configuration window and read by the factory, the
    display slots and the emitted channels, and the preview and the crops. */
module Consistency {
  import opened Quadrants
  import Processor
  import Frame
  import Factory

  /** A factory built from a window's settings creates processors with
      exactly that window's flags. */
  lemma SettingsRoundTrip(sel: Selection)
    ensures Factory.CreateProcessor(Factory.FromSettings(Frame.GetSettings(sel))) == sel
  {
  }

  /** After a flag change, every channel index k the processor emits has a
      display slot, showing the colour of the k-th kept quadrant, which is
      the quadrant whose crop is emitted at that index. */
  lemma DisplayMatchesEmittedChannels<P, M, D>(img: Processor.Image<P, M>, sel: Selection,
                                               base: Frame.DisplaySettings<D>, k: nat)
    requires Processor.WellFormed(img)
    requires k < |Processor.ProcessImage(img, sel)|
    ensures var d := Frame.DisplaySettingsFor(sel, base);
            && Processor.ProcessImage(img, sel)[k] == Processor.Output(img, Kept(sel)[k], k)
            && k in d.channelColors && d.channelColors[k] == Frame.DisplayColor(Kept(sel)[k])
  {
  }

  /** The display is grayscale exactly when the processor emits one image. */
  lemma GrayscaleIffSingleOutput<P, M, D>(img: Processor.Image<P, M>, sel: Selection, base: Frame.DisplaySettings<D>)
    requires Processor.WellFormed(img)
    ensures Frame.DisplaySettingsFor(sel, base).mode == Frame.Grayscale
            <==> |Processor.ProcessImage(img, sel)| == 1
  {
  }

  /** The preview draws each quadrant where the processor crops it from a
      frame the size of the preview, and grays it exactly when the
      processor discards it. */
  lemma PreviewMatchesCrops(sel: Selection)
    ensures forall i :: 0 <= i < |Order| ==>
              && Frame.PreviewBoxes(sel)[i].area == Processor.Roi(Order[i], Frame.PreviewSize, Frame.PreviewSize)
              && (Frame.PreviewBoxes(sel)[i].fill == Frame.LightGray <==> Order[i] !in Kept(sel))
  {
  }
}
